/** What the fates of messages mean for their senders. */
module QueueOutcomes {
  import opened Prelude
  import opened QueueSpec
  import opened QueueConservation
  import opened QueueFates

  // ----- Every message is accepted

  function Performs(q: Queue, events: seq<Event>): nat {
    if events == [] then 0 else
      var before, e := events[..|events| - 1], events[|events| - 1];
      Performs(q, before) + One(e.Perform? && !Crashes(Play(q, before), e))
  }

  /** A message without handler is passed through to a target that is gone. */
  predicate Crashes(b: Queue, e: Event) {
    e.Perform? && b.suspended && !b.targetAlive && e.msg.handler.None?
  }

  lemma StepAccepts(b: Queue, e: Event)
    ensures Step(b, e).accepted == b.accepted + One(e.Perform? && !Crashes(b, e))
  {
    if !e.Perform? && !e.RunsForward? && !e.Overflows? && !e.Unregisters? {
      ReplyStepKeepsMessages(b, e);
    }
  }

  predicate SameSettings(b: Queue, r: Queue) {
    r.suspended == b.suspended && r.callbackWorkflow == b.callbackWorkflow && r.tracking == b.tracking
  }

  lemma ArrivalSettings(b: Queue, m: Message)
    ensures var r := PerformIo(b, m);
      SameSettings(b, r) && r.queueAlive == b.queueAlive
  {
  }

  lemma ForwardSettings(b: Queue, i: nat)
    ensures var r := RunForward(b);
      SameSettings(b, r) && r.queueAlive == b.queueAlive
    ensures var r := Overflow(b, i);
      SameSettings(b, r) && r.queueAlive == b.queueAlive
  {
  }

  lemma AnswerSettings(b: Queue, k: nat, data: Option<Data>)
    ensures var r := Answer(b, k, data); SameSettings(b, r) && r.queueAlive == b.queueAlive
  {
  }

  lemma BackSettings(b: Queue, i: nat)
    ensures var r := RunBack(b); SameSettings(b, r) && r.queueAlive == b.queueAlive
    ensures var r := BackOverflow(b, i); SameSettings(b, r) && r.queueAlive == b.queueAlive
  {
  }

  lemma StepSettings(b: Queue, e: Event)
    ensures SameSettings(b, Step(b, e))
    ensures Step(b, e).queueAlive == (b.queueAlive && !e.QueueDies?)
  {
    match e
    case Perform(m) => ArrivalSettings(b, m);
    case RunsForward => ForwardSettings(b, 0);
    case Overflows(i) => ForwardSettings(b, i);
    case Answers(k, data) => AnswerSettings(b, k, data);
    case RunsBack => BackSettings(b, 0);
    case BackOverflows(i) => BackSettings(b, i);
    case _ =>
  }

  /** Every message that does not crash the program is accepted, and nothing else is. */
  lemma {:induction false} AcceptedIsPerformed(q: Queue, events: seq<Event>)
    requires Untouched(q)
    ensures Play(q, events).accepted == Performs(q, events)
    decreases |events|
  {
    if events != [] {
      AcceptedIsPerformed(q, events[..|events| - 1]);
      StepAccepts(Play(q, events[..|events| - 1]), events[|events| - 1]);
    }
  }

  lemma StepCrashes(b: Queue, e: Event)
    ensures Step(b, e).crashed <==> b.crashed || Crashes(b, e)
  {
    if e.Answers? || e.RunsBack? || e.BackOverflows? {
      RepliesDoNotCrash(b, e);
    }
  }

  lemma RepliesDoNotCrash(b: Queue, e: Event)
    requires e.Answers? || e.RunsBack? || e.BackOverflows?
    ensures Step(b, e).crashed == b.crashed
  {
  }

  function CrashKind(): (Queue, Event) -> bool {
    (b: Queue, e: Event) => Crashes(b, e)
  }

  /** A run dereferences a null target iff, while suspended, a message without a handler came when the
      target was gone. */
  lemma {:induction false} CrashedIff(q: Queue, events: seq<Event>)
    requires Untouched(q)
    ensures Play(q, events).crashed <==> Ever(q, events, CrashKind())
    decreases |events|
  {
    if events != [] {
      var before, e := events[..|events| - 1], events[|events| - 1];
      assert events == before + [e];
      CrashedIff(q, before);
      EverSnoc(q, before, e, CrashKind());
      StepCrashes(Play(q, before), e);
    } else {
      assert forall i :: !HappensAt(q, events, i, CrashKind());
    }
  }

  // ----- Which pending messages an unreg_io has silenced

  function Silences(id: IoId, serial: nat): (Queue, Event) -> bool {
    (b: Queue, e: Event) => e == Unregisters(id) && serial < b.accepted
  }

  /** Pending tasks are of accepted messages, and valid until an unreg_io of their own id. */
  ghost predicate ValidAsTold(q: Queue, events: seq<Event>) {
    forall i :: 0 <= i < |Play(q, events).forward| ==> ToldOf(q, events, Play(q, events).forward[i])
  }

  ghost predicate ToldOf(q: Queue, events: seq<Event>, t: Task) {
    && t.serial < Play(q, events).accepted
    && (!t.valid <==> q.tracking && Ever(q, events, Silences(t.msg.ioId, t.serial)))
  }

  lemma {:induction false} SettingsStay(q: Queue, events: seq<Event>)
    ensures SameSettings(q, Play(q, events))
    decreases |events|
  {
    if events != [] {
      SettingsStay(q, events[..|events| - 1]);
      StepSettings(Play(q, events[..|events| - 1]), events[|events| - 1]);
    }
  }

  /** Nothing can have silenced a message before it was accepted. */
  lemma {:induction false} NotSilencedEarly(q: Queue, events: seq<Event>, id: IoId, serial: nat)
    requires serial >= Play(q, events).accepted
    ensures !Ever(q, events, Silences(id, serial))
    decreases |events|
  {
    if events != [] {
      var before, e := events[..|events| - 1], events[|events| - 1];
      assert events == before + [e];
      StepAccepts(Play(q, before), e);
      NotSilencedEarly(q, before, id, serial);
      EverSnoc(q, before, e, Silences(id, serial));
    } else {
      assert forall i :: !HappensAt(q, events, i, Silences(id, serial));
    }
  }

  lemma OlderStaysTold(q: Queue, before: seq<Event>, e: Event, t: Task)
    requires ToldOf(q, before, t) && !e.Unregisters?
    ensures ToldOf(q, before + [e], t)
  {
    assert (before + [e])[..|before|] == before;
    EverSnoc(q, before, e, Silences(t.msg.ioId, t.serial));
    StepAccepts(Play(q, before), e);
  }

  lemma RunLeaves(b: Queue, t: Task)
    requires t in RunForward(b).forward
    ensures t in b.forward
  {
  }

  lemma OverflowLeaves(b: Queue, i: nat, t: Task)
    requires t in Overflow(b, i).forward
    ensures t in b.forward
  {
  }

  lemma ArrivalAdds(b: Queue, e: Event, t: Task)
    requires e.Perform? && t in PerformIo(b, e.msg).forward
    ensures t in b.forward || Arrives(b, e, t)
  {
  }

  /** What is pending after an event was pending before, unless it has just arrived. */
  lemma PendingAfter(b: Queue, e: Event, t: Task)
    requires t in Step(b, e).forward && !e.Unregisters?
    ensures t in b.forward || Arrives(b, e, t)
  {
    if e.Perform? {
      ArrivalAdds(b, e, t);
    } else if e.RunsForward? {
      RunLeaves(b, t);
    } else if e.Overflows? {
      OverflowLeaves(b, e.task, t);
    } else {
      ReplyStepKeepsMessages(b, e);
    }
  }

  lemma UnregStaysTold(q: Queue, before: seq<Event>, id: IoId, t: Task)
    requires ToldOf(q, before, t)
    ensures var after := if q.tracking && t.msg.ioId == id then t.(valid := false) else t;
      ToldOf(q, before + [Unregisters(id)], after)
  {
    assert (before + [Unregisters(id)])[..|before|] == before;
    EverSnoc(q, before, Unregisters(id), Silences(t.msg.ioId, t.serial));
  }

  lemma {:induction false} AlwaysValidAsTold(q: Queue, events: seq<Event>)
    requires Untouched(q)
    ensures ValidAsTold(q, events)
    decreases |events|
  {
    if events != [] {
      var before, e := events[..|events| - 1], events[|events| - 1];
      AlwaysValidAsTold(q, before);
      assert events == before + [e];
      SettingsStay(q, before);
      var b := Play(q, before);
      forall i | 0 <= i < |Play(q, events).forward| ensures ToldOf(q, events, Play(q, events).forward[i]) {
        OneToldOf(q, before, e, Play(q, events).forward[i], i);
      }
    }
  }

  lemma OneToldOf(q: Queue, before: seq<Event>, e: Event, t: Task, i: nat)
    requires ValidAsTold(q, before) && Play(q, before).tracking == q.tracking
    requires i < |Step(Play(q, before), e).forward| && t == Step(Play(q, before), e).forward[i]
    ensures ToldOf(q, before + [e], t)
  {
    var b := Play(q, before);
    if e.Unregisters? {
      UnregStaysTold(q, before, e.id, b.forward[i]);
    } else {
      PendingAfter(b, e, t);
      if t in b.forward {
        OlderStaysTold(q, before, e, t);
      } else {
        assert (before + [e])[..|before|] == before;
        NotSilencedEarly(q, before, t.msg.ioId, t.serial);
        EverSnoc(q, before, e, Silences(t.msg.ioId, t.serial));
        StepAccepts(b, e);
      }
    }
  }

  /** A pending message will not run iff tracking is on and its own id was unregistered after it had
      been accepted; an unreg_io of another id never stops it. */
  lemma SilencedIff(q: Queue, events: seq<Event>, t: Task)
    requires Untouched(q) && t in Play(q, events).forward
    ensures !t.valid <==> q.tracking && Ever(q, events, Silences(t.msg.ioId, t.serial))
  {
    AlwaysValidAsTold(q, events);
  }

  // ----- Dropped without a word

  lemma {:induction false} QueueLives(q: Queue, events: seq<Event>)
    requires q.queueAlive && forall i :: 0 <= i < |events| ==> !events[i].QueueDies?
    ensures Play(q, events).queueAlive
    decreases |events|
  {
    if events != [] {
      QueueLives(q, events[..|events| - 1]);
      StepSettings(Play(q, events[..|events| - 1]), events[|events| - 1]);
    }
  }

  /** A message is dropped without a word to its sender only if its id was unregistered under tracking
      or the queue died. */
  lemma DroppedOnlyIf(q: Queue, events: seq<Event>, t: Task)
    requires Untouched(q) && q.queueAlive && t in Play(q, events).dropped
    ensures (exists i :: 0 <= i < |events| && events[i].QueueDies?)
      || (q.tracking && exists i :: 0 <= i < |events| && events[i] == Unregisters(t.msg.ioId))
  {
    Fates(q, events, t, Call(0, t.msg, NoHook));
    var i :| HappensAt(q, events, i, Drops(t));
    var before := events[..i];
    if forall j :: 0 <= j < i ==> !events[j].QueueDies? {
      QueueLives(q, before);
      AlwaysValidAsTold(q, before);
      assert ToldOf(q, before, Play(q, before).forward[0]);
      var j :| HappensAt(q, before, j, Silences(t.msg.ioId, t.serial));
      assert events[j] == Unregisters(t.msg.ioId);
    }
  }

  // ----- Refused

  lemma CountsOne<T>(s: seq<T>, p: T -> bool, x: T)
    requires x in s && p(x)
    ensures Count(s, p) > 0
  {
    OccursIffCounted(s, p);
  }

  /** The sender of a refused message hears nullptr, exactly once, and nothing else ever. */
  lemma RefusedHearsNullptr(q: Queue, events: seq<Event>, t: Task)
    requires Untouched(q) && t in Play(q, events).refused && t.msg.handler.Some?
    ensures var r := Play(q, events);
      && Reply(t.serial, t.msg.handler.value, None) in r.fired
      && Count(r.fired, ReplyIs(t.serial)) == 1 && Count(r.back, ReplyIs(t.serial)) == 0
  {
    var r := Play(q, events);
    Fates(q, events, t, Call(0, t.msg, NoHook));
    var nullptr := Reply(t.serial, t.msg.handler.value, None);
    var i :| HappensAt(q, events, i, Refuses(t));
    assert Refuses(t)(Play(q, events[..i]), events[i]);
    assert HappensAt(q, events, i, Fires(nullptr));
    FiredIff(q, events, nullptr);
    CountsOne(r.fired, ReplyIs(t.serial), nullptr);
    CountsOne(r.refused, TaskIs(t.serial), t);
    EveryMessageOnce(q, events, t.serial);
    AlwaysBalanced(q, events, t.serial);
    AlwaysCalled(q, events);
    CountsOrdered(r.refused, HandledTaskIs(t.serial), TaskIs(t.serial));
    if Count(r.answered, ReplyIs(t.serial)) > 0 { AnsweredIsCalled(r, t.serial); }
  }

  // ----- The options of a queue

  /** Without tracking, and as long as the queue lives, no message is dropped without a word. */
  lemma WithoutTrackingNothingDrops(suspended: bool, callbackWorkflow: bool, events: seq<Event>)
    requires forall i :: 0 <= i < |events| ==> !events[i].QueueDies?
    ensures Play(NewQueue(suspended, callbackWorkflow, false), events).dropped == []
  {
    var q := NewQueue(suspended, callbackWorkflow, false);
    if Play(q, events).dropped != [] {
      DroppedOnlyIf(q, events, Play(q, events).dropped[0]);
    }
  }

  lemma StepKeepsEmpty(b: Queue, e: Event)
    requires b.suspended && b.forward == []
    ensures Step(b, e).forward == []
  {
    if !e.Perform? && !e.RunsForward? && !e.Overflows? && !e.Unregisters? {
      ReplyStepKeepsMessages(b, e);
    }
  }

  lemma {:induction false} SuspendedPostsNothing(q: Queue, events: seq<Event>)
    requires Untouched(q) && q.suspended
    ensures Play(q, events).forward == []
    decreases |events|
  {
    if events != [] {
      SuspendedPostsNothing(q, events[..|events| - 1]);
      SettingsStay(q, events[..|events| - 1]);
      StepKeepsEmpty(Play(q, events[..|events| - 1]), events[|events| - 1]);
    }
  }

  /** The target gets the caller's handler itself when there is no reply workflow or the message was
      passed through, and otherwise one that posts to that workflow. */
  lemma HandlersAre(suspended: bool, callbackWorkflow: bool, tracking: bool, events: seq<Event>, c: Call)
    requires c in Play(NewQueue(suspended, callbackWorkflow, tracking), events).called
    ensures Wraps(c.msg.handler, c.hook, callbackWorkflow && !suspended)
  {
    var q := NewQueue(suspended, callbackWorkflow, tracking);
    Fates(q, events, Task(0, c.msg, true), c);
    var i :| HappensAt(q, events, i, CallsTarget(c));
    SettingsStay(q, events[..i]);
    if suspended { SuspendedPostsNothing(q, events[..i]); }
  }

  lemma ForwardPostsNoReply(b: Queue, m: Message, i: nat)
    ensures PerformIo(b, m).back == b.back && RunForward(b).back == b.back && Overflow(b, i).back == b.back
  {
  }

  lemma StepPostsNothing(b: Queue, e: Event)
    requires b.back == [] && (e.Answers? && e.call < |b.called| ==> !b.called[e.call].hook.Posting?)
    ensures Step(b, e).back == []
  {
    if e.Perform? {
      ForwardPostsNoReply(b, e.msg, 0);
    } else if e.RunsForward? || e.Overflows? {
      ForwardPostsNoReply(b, Message("", 0, None), if e.Overflows? then e.task else 0);
    }
  }

  /** Without a reply workflow no reply ever waits. */
  lemma {:induction false} WithoutReplyWorkflow(suspended: bool, tracking: bool, events: seq<Event>)
    ensures Play(NewQueue(suspended, false, tracking), events).back == []
    decreases |events|
  {
    if events != [] {
      var before, e := events[..|events| - 1], events[|events| - 1];
      WithoutReplyWorkflow(suspended, tracking, before);
      var b := Play(NewQueue(suspended, false, tracking), before);
      if e.Answers? && e.call < |b.called| {
        HandlersAre(suspended, false, tracking, before, b.called[e.call]);
      }
      StepPostsNothing(b, e);
    }
  }
}
