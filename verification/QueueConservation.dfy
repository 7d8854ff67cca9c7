/** What no run loses or duplicates. */
module QueueConservation {
  import opened Prelude
  import opened QueueSpec

  // ----- Counting

  function Count<T>(s: seq<T>, p: T -> bool): nat {
    if s == [] then 0 else Count(s[..|s| - 1], p) + One(p(s[|s| - 1]))
  }

  lemma CountAdded<T>(s: seq<T>, y: T, p: T -> bool)
    ensures Count(s + [y], p) == Count(s, p) + One(p(y))
  {
    assert (s + [y])[..|s|] == s;
  }

  lemma {:induction false} CountRemoved<T>(s: seq<T>, i: nat, p: T -> bool)
    requires i < |s|
    ensures Count(s, p) == Count(s[..i] + s[i + 1..], p) + One(p(s[i]))
    decreases |s|
  {
    var last := |s| - 1;
    if i == last {
      assert s[..i] + s[i + 1..] == s[..last];
    } else {
      CountRemoved(s[..last], i, p);
      assert s[..i] + s[i + 1..] == (s[..last][..i] + s[..last][i + 1..]) + [s[last]];
      CountAdded(s[..last][..i] + s[..last][i + 1..], s[last], p);
    }
  }

  lemma {:induction false} CountsAgree<T>(s: seq<T>, r: seq<T>, p: T -> bool)
    requires |s| == |r| && forall i :: 0 <= i < |s| ==> p(s[i]) == p(r[i])
    ensures Count(s, p) == Count(r, p)
    decreases |s|
  {
    if s != [] {
      CountsAgree(s[..|s| - 1], r[..|s| - 1], p);
    }
  }

  lemma {:induction false} CountsOrdered<T>(s: seq<T>, p: T -> bool, q: T -> bool)
    requires forall i :: 0 <= i < |s| && p(s[i]) ==> q(s[i])
    ensures Count(s, p) <= Count(s, q)
    decreases |s|
  {
    if s != [] {
      CountsOrdered(s[..|s| - 1], p, q);
    }
  }

  lemma {:induction false} OccursIffCounted<T>(s: seq<T>, p: T -> bool)
    ensures Count(s, p) > 0 <==> exists i :: 0 <= i < |s| && p(s[i])
    decreases |s|
  {
    if s != [] {
      var last := |s| - 1;
      OccursIffCounted(s[..last], p);
      assert forall i :: 0 <= i < last ==> s[..last][i] == s[i];
      if Count(s[..last], p) > 0 {
        var i :| 0 <= i < |s[..last]| && p(s[..last][i]);
        assert p(s[i]);
      }
    }
  }

  function TaskIs(x: nat): Task -> bool {
    (t: Task) => t.serial == x
  }

  function CallIs(x: nat): Call -> bool {
    (c: Call) => c.serial == x
  }

  function ReplyIs(x: nat): Reply -> bool {
    (r: Reply) => r.serial == x
  }

  /** The task of message x, if its caller gave a handler. */
  function HandledTaskIs(x: nat): Task -> bool {
    (t: Task) => t.serial == x && t.msg.handler.Some?
  }

  // ----- Messages

  /** In how many places message x can be found. */
  function Places(q: Queue, x: nat): nat {
    Count(q.forward, TaskIs(x)) + Count(q.called, CallIs(x))
    + Count(q.refused, TaskIs(x)) + Count(q.dropped, TaskIs(x))
  }

  /** A step accepts one message or none, and moves the others around. */
  predicate Conserves(q: Queue, r: Queue, x: nat) {
    || (r.accepted == q.accepted && Places(r, x) == Places(q, x))
    || (r.accepted == q.accepted + 1 && Places(r, x) == Places(q, x) + One(q.accepted == x))
  }

  /** A task leaves the message workflow. */
  lemma Dequeued(q: Queue, i: nat, x: nat)
    requires i < |q.forward|
    ensures Places(q.(forward := q.forward[..i] + q.forward[i + 1..]), x) == Places(q, x) - One(q.forward[i].serial == x)
  {
    CountRemoved(q.forward, i, TaskIs(x));
  }

  lemma Refused(q: Queue, t: Task, x: nat)
    ensures Places(Refuse(q, t), x) == Places(q, x) + One(t.serial == x)
  {
    CountAdded(q.refused, t, TaskIs(x));
  }

  lemma Passed(q: Queue, c: Call, x: nat)
    ensures Places(q.(called := q.called + [c]), x) == Places(q, x) + One(c.serial == x)
  {
    CountAdded(q.called, c, CallIs(x));
  }

  lemma Enqueued(q: Queue, t: Task, x: nat)
    ensures Places(q.(forward := q.forward + [t]), x) == Places(q, x) + One(t.serial == x)
  {
    CountAdded(q.forward, t, TaskIs(x));
  }

  lemma Accepted(q: Queue, r: Queue, x: nat)
    requires r.accepted == q.accepted && Places(r, x) == Places(q, x) + One(q.accepted == x)
    ensures Conserves(q, r.(accepted := q.accepted + 1), x)
  {
  }

  lemma PerformConserves(q: Queue, m: Message, x: nat)
    ensures Conserves(q, PerformIo(q, m), x)
  {
    var t := Task(q.accepted, m, true);
    if !q.targetAlive && m.handler.Some? {
      Refused(q, t, x);
      Accepted(q, Refuse(q, t), x);
    } else if q.suspended {
      var c := Call(q.accepted, m, if m.handler.Some? then Direct(m.handler.value) else NoHook);
      Passed(q, c, x);
      Accepted(q, q.(called := q.called + [c]), x);
    } else {
      Enqueued(q, t, x);
      Accepted(q, q.(forward := q.forward + [t]), x);
    }
  }

  lemma DroppedTask(q: Queue, t: Task, x: nat)
    ensures Places(q.(dropped := q.dropped + [t]), x) == Places(q, x) + One(t.serial == x)
  {
    CountAdded(q.dropped, t, TaskIs(x));
  }

  /** A message that left one place and entered another. */
  lemma Moved(q: Queue, gone: Queue, r: Queue, serial: nat, x: nat)
    requires Places(q, x) == Places(gone, x) + One(serial == x) && Places(r, x) == Places(gone, x) + One(serial == x)
    requires r.accepted == q.accepted
    ensures Conserves(q, r, x)
  {
  }

  lemma RunConserves(q: Queue, x: nat)
    requires q.forward != []
    ensures Conserves(q, RunForward(q), x)
  {
    var t := q.forward[0];
    var gone := q.(forward := q.forward[1..]);
    assert q.forward[..0] + q.forward[1..] == q.forward[1..];
    Dequeued(q, 0, x);
    if !t.valid || !q.queueAlive {
      DroppedTask(gone, t, x);
    } else if q.targetAlive {
      Passed(gone, Call(t.serial, t.msg, MakeHandler(q, t.msg.handler)), x);
    } else {
      Refused(gone, t, x);
    }
    Moved(q, gone, RunForward(q), t.serial, x);
  }

  lemma OverflowConserves(q: Queue, i: nat, x: nat)
    requires i < |q.forward|
    ensures Conserves(q, Overflow(q, i), x)
  {
    Dequeued(q, i, x);
    Refused(q.(forward := q.forward[..i] + q.forward[i + 1..]), q.forward[i], x);
  }

  lemma UnregConserves(q: Queue, id: IoId, x: nat)
    ensures Conserves(q, UnregIo(q, id), x)
  {
    CountsAgree(Invalidated(q.forward, id), q.forward, TaskIs(x));
  }

  /** Only the replies differ. */
  predicate SameMessages(q: Queue, r: Queue) {
    && r.accepted == q.accepted && r.forward == q.forward && r.called == q.called
    && r.refused == q.refused && r.dropped == q.dropped && r.suspended == q.suspended
  }

  lemma AnswerKeepsMessages(q: Queue, k: nat, data: Option<Data>)
    ensures SameMessages(q, Answer(q, k, data))
  {
  }

  lemma BackKeepsMessages(q: Queue, i: nat)
    ensures SameMessages(q, RunBack(q)) && SameMessages(q, BackOverflow(q, i))
  {
  }

  /** Steps that concern the replies leave the messages alone. */
  lemma ReplyStepKeepsMessages(q: Queue, e: Event)
    requires !e.Perform? && !e.RunsForward? && !e.Overflows? && !e.Unregisters?
    ensures SameMessages(q, Step(q, e))
  {
    match e
    case Answers(k, data) => AnswerKeepsMessages(q, k, data);
    case RunsBack => BackKeepsMessages(q, 0);
    case BackOverflows(i) => BackKeepsMessages(q, i);
    case TargetDies =>
    case QueueDies =>
  }

  lemma SamePlaces(q: Queue, r: Queue, x: nat)
    requires SameMessages(q, r)
    ensures Conserves(q, r, x)
  {
  }

  lemma StepConserves(q: Queue, e: Event, x: nat)
    ensures Conserves(q, Step(q, e), x)
  {
    if e.Perform? {
      PerformConserves(q, e.msg, x);
    } else if e.RunsForward? {
      if q.forward != [] { RunConserves(q, x); }
    } else if e.Overflows? {
      if e.task < |q.forward| { OverflowConserves(q, e.task, x); }
    } else if e.Unregisters? {
      UnregConserves(q, e.id, x);
    } else {
      ReplyStepKeepsMessages(q, e);
      SamePlaces(q, Step(q, e), x);
    }
  }

  /** At any moment every accepted message is in exactly one place: pending, passed to the target,
      refused, or dropped; and nothing else is anywhere. */
  lemma {:induction false} EveryMessageOnce(q: Queue, events: seq<Event>, x: nat)
    requires q.accepted == 0 && Places(q, x) == 0
    ensures Places(Play(q, events), x) == One(x < Play(q, events).accepted)
    decreases |events|
  {
    if events != [] {
      var before := events[..|events| - 1];
      EveryMessageOnce(q, before, x);
      StepConserves(Play(q, before), events[|events| - 1], x);
    }
  }

  // ----- Replies

  /** Handlers called or about to be called are those the target answered plus the refused ones. */
  predicate Balanced(q: Queue, x: nat) {
    Count(q.fired, ReplyIs(x)) + Count(q.back, ReplyIs(x))
      == Count(q.answered, ReplyIs(x)) + Count(q.refused, HandledTaskIs(x))
  }

  lemma NullptrAdded(s: seq<Reply>, t: Task, x: nat)
    ensures Count(s + Nullptr(t), ReplyIs(x)) == Count(s, ReplyIs(x)) + One(t.msg.handler.Some? && t.serial == x)
  {
    if t.msg.handler.Some? {
      CountAdded(s, Reply(t.serial, t.msg.handler.value, None), ReplyIs(x));
    } else {
      assert s + Nullptr(t) == s;
    }
  }

  lemma RefuseBalances(q: Queue, t: Task, x: nat)
    requires Balanced(q, x)
    ensures Balanced(Refuse(q, t), x)
  {
    CountAdded(q.refused, t, HandledTaskIs(x));
    NullptrAdded(q.fired, t, x);
  }

  lemma AnswerBalances(q: Queue, k: nat, data: Option<Data>, x: nat)
    requires Balanced(q, x)
    ensures Balanced(Answer(q, k, data), x)
  {
    if k < |q.called| && !q.called[k].hook.NoHook? {
      var r := Reply(q.called[k].serial, q.called[k].hook.handler, data);
      CountAdded(q.answered, r, ReplyIs(x));
      CountAdded(q.fired, r, ReplyIs(x));
      CountAdded(q.back, r, ReplyIs(x));
    }
  }

  lemma BackBalances(q: Queue, i: nat, data: Option<Data>, x: nat)
    requires Balanced(q, x) && i < |q.back|
    ensures Balanced(q.(back := q.back[..i] + q.back[i + 1..], fired := q.fired + [q.back[i].(data := data)]), x)
  {
    CountRemoved(q.back, i, ReplyIs(x));
    CountAdded(q.fired, q.back[i].(data := data), ReplyIs(x));
  }

  lemma PerformBalances(q: Queue, m: Message, x: nat)
    requires Balanced(q, x)
    ensures Balanced(PerformIo(q, m), x)
  {
    if !q.targetAlive && m.handler.Some? {
      RefuseBalances(q, Task(q.accepted, m, true), x);
    }
  }

  lemma RunBalances(q: Queue, x: nat)
    requires Balanced(q, x)
    ensures Balanced(RunForward(q), x)
  {
    if q.forward != [] {
      var t, r := q.forward[0], q.(forward := q.forward[1..]);
      assert Balanced(r, x);
      if t.valid && q.queueAlive && !q.targetAlive {
        RefuseBalances(r, t, x);
      }
    }
  }

  lemma OverflowBalances(q: Queue, i: nat, x: nat)
    requires Balanced(q, x)
    ensures Balanced(Overflow(q, i), x)
  {
    if i < |q.forward| {
      RefuseBalances(q.(forward := q.forward[..i] + q.forward[i + 1..]), q.forward[i], x);
    }
  }

  lemma RunBackBalances(q: Queue, x: nat)
    requires Balanced(q, x)
    ensures Balanced(RunBack(q), x)
  {
    if q.back != [] {
      BackBalances(q, 0, q.back[0].data, x);
      assert q.back[..0] + q.back[1..] == q.back[1..];
      assert q.back[0].(data := q.back[0].data) == q.back[0];
    }
  }

  lemma BackOverflowBalances(q: Queue, i: nat, x: nat)
    requires Balanced(q, x)
    ensures Balanced(BackOverflow(q, i), x)
  {
    if i < |q.back| { BackBalances(q, i, None, x); }
  }

  lemma SameReplies(q: Queue, r: Queue, x: nat)
    requires Balanced(q, x) && r.fired == q.fired && r.back == q.back && r.answered == q.answered && r.refused == q.refused
    ensures Balanced(r, x)
  {
  }

  lemma StepBalances(q: Queue, e: Event, x: nat)
    requires Balanced(q, x)
    ensures Balanced(Step(q, e), x)
  {
    if e.Perform? {
      PerformBalances(q, e.msg, x);
    } else if e.RunsForward? {
      RunBalances(q, x);
    } else if e.Overflows? {
      OverflowBalances(q, e.task, x);
    } else if e.Answers? {
      AnswerBalances(q, e.call, e.data, x);
    } else if e.RunsBack? {
      RunBackBalances(q, x);
    } else if e.BackOverflows? {
      BackOverflowBalances(q, e.reply, x);
    } else {
      SameReplies(q, Step(q, e), x);
    }
  }

  lemma {:induction false} AlwaysBalanced(q: Queue, events: seq<Event>, x: nat)
    requires Balanced(q, x)
    ensures Balanced(Play(q, events), x)
    decreases |events|
  {
    if events != [] {
      AlwaysBalanced(q, events[..|events| - 1], x);
      StepBalances(Play(q, events[..|events| - 1]), events[|events| - 1], x);
    }
  }

  /** The target can only answer what it was called with. */
  ghost predicate WasCalled(calls: seq<Call>, serial: nat) {
    exists k :: 0 <= k < |calls| && calls[k].serial == serial
  }

  ghost predicate AnsweredWereCalled(q: Queue) {
    forall i :: 0 <= i < |q.answered| ==> WasCalled(q.called, q.answered[i].serial)
  }

  lemma CalledGrows(q: Queue, r: Queue)
    requires AnsweredWereCalled(q) && q.called <= r.called && r.answered == q.answered
    ensures AnsweredWereCalled(r)
  {
    forall i | 0 <= i < |r.answered| ensures WasCalled(r.called, r.answered[i].serial) {
      assert WasCalled(q.called, q.answered[i].serial);
      var k :| 0 <= k < |q.called| && q.called[k].serial == q.answered[i].serial;
      assert r.called[k] == q.called[k];
    }
  }

  lemma AnswerStep(q: Queue, k: nat, data: Option<Data>)
    requires AnsweredWereCalled(q)
    ensures AnsweredWereCalled(Answer(q, k, data))
  {
    if k < |q.called| {
      assert WasCalled(q.called, q.called[k].serial);
    }
  }

  lemma AnsweredStep(q: Queue, e: Event)
    requires AnsweredWereCalled(q)
    ensures AnsweredWereCalled(Step(q, e))
  {
    if e.Answers? {
      AnswerStep(q, e.call, e.data);
    } else {
      CalledGrows(q, Step(q, e));
    }
  }

  lemma {:induction false} AlwaysCalled(q: Queue, events: seq<Event>)
    requires q.answered == []
    ensures AnsweredWereCalled(Play(q, events))
    decreases |events|
  {
    if events != [] {
      AlwaysCalled(q, events[..|events| - 1]);
      AnsweredStep(Play(q, events[..|events| - 1]), events[|events| - 1]);
    }
  }

  /** If the target answers a message at most once, its reply handler is called at most once. */
  lemma HandlerFiresAtMostOnce(q: Queue, events: seq<Event>, x: nat)
    requires exists a, b, c :: q == NewQueue(a, b, c)
    requires Count(Play(q, events).answered, ReplyIs(x)) <= 1
    ensures var r := Play(q, events);
      Count(r.fired, ReplyIs(x)) + Count(r.back, ReplyIs(x)) <= 1
  {
    var r := Play(q, events);
    AlwaysBalanced(q, events, x);
    AlwaysCalled(q, events);
    EveryMessageOnce(q, events, x);
    CountsOrdered(r.refused, HandledTaskIs(x), TaskIs(x));
    if Count(r.answered, ReplyIs(x)) == 1 {
      AnsweredIsCalled(r, x);
    }
  }

  lemma AnsweredIsCalled(q: Queue, x: nat)
    requires AnsweredWereCalled(q) && Count(q.answered, ReplyIs(x)) > 0
    ensures Count(q.called, CallIs(x)) > 0
  {
    OccursIffCounted(q.answered, ReplyIs(x));
    var i :| 0 <= i < |q.answered| && ReplyIs(x)(q.answered[i]);
    assert WasCalled(q.called, q.answered[i].serial);
    var k :| 0 <= k < |q.called| && q.called[k].serial == x;
    assert CallIs(x)(q.called[k]);
    OccursIffCounted(q.called, CallIs(x));
  }

  // ----- Tracking

  /** No valid task of `id` that is older than message `since` is waiting. */
  predicate Silenced(q: Queue, id: IoId, since: nat) {
    && since <= q.accepted && !q.suspended
    && forall i :: 0 <= i < |q.forward| ==> Mute(q.forward[i], id, since)
  }

  predicate Mute(t: Task, id: IoId, since: nat) {
    t.msg.ioId == id && t.serial < since ==> !t.valid
  }

  /** Calls from position `from` on that concern `id` are of messages accepted later than `since`. */
  predicate OnlyNewCalls(calls: seq<Call>, from: nat, id: IoId, since: nat) {
    forall k :: from <= k < |calls| && calls[k].msg.ioId == id ==> calls[k].serial >= since
  }

  lemma RunSilenced(q: Queue, id: IoId, since: nat, from: nat)
    requires Silenced(q, id, since) && OnlyNewCalls(q.called, from, id, since)
    ensures Silenced(RunForward(q), id, since) && OnlyNewCalls(RunForward(q).called, from, id, since)
  {
    if q.forward != [] {
      assert Mute(q.forward[0], id, since);
      forall i | 0 <= i < |q.forward[1..]| ensures Mute(q.forward[1..][i], id, since) {
        assert Mute(q.forward[i + 1], id, since);
      }
    }
  }

  lemma OverflowSilenced(q: Queue, i: nat, id: IoId, since: nat)
    requires Silenced(q, id, since)
    ensures Silenced(Overflow(q, i), id, since) && Overflow(q, i).called == q.called
  {
    var rest := Overflow(q, i).forward;
    forall k | 0 <= k < |rest| ensures Mute(rest[k], id, since) {
      assert Mute(q.forward[if i < |q.forward| && k >= i then k + 1 else k], id, since);
    }
  }

  lemma UnregSilenced(q: Queue, other: IoId, id: IoId, since: nat)
    requires Silenced(q, id, since)
    ensures Silenced(UnregIo(q, other), id, since)
  {
    forall i | 0 <= i < |q.forward| ensures Mute(Invalidated(q.forward, other)[i], id, since) {
      assert Mute(q.forward[i], id, since);
    }
  }

  lemma SilencedStep(q: Queue, e: Event, id: IoId, since: nat, from: nat)
    requires Silenced(q, id, since) && OnlyNewCalls(q.called, from, id, since)
    ensures Silenced(Step(q, e), id, since) && OnlyNewCalls(Step(q, e).called, from, id, since)
  {
    if e.RunsForward? {
      RunSilenced(q, id, since, from);
    } else if e.Overflows? {
      OverflowSilenced(q, e.task, id, since);
    } else if e.Unregisters? {
      UnregSilenced(q, e.id, id, since);
    } else if !e.Perform? {
      ReplyStepKeepsMessages(q, e);
    }
  }

  /** With tracking, what was pending for an id when it unregistered never reaches the target. */
  lemma {:induction false} NothingAfterUnreg(q: Queue, id: IoId, events: seq<Event>)
    requires q.tracking && !q.suspended
    ensures var r := Play(UnregIo(q, id), events);
      Silenced(r, id, q.accepted) && OnlyNewCalls(r.called, |q.called|, id, q.accepted)
    decreases |events|
  {
    if events != [] {
      var before := events[..|events| - 1];
      NothingAfterUnreg(q, id, before);
      SilencedStep(Play(UnregIo(q, id), before), events[|events| - 1], id, q.accepted, |q.called|);
    }
  }

  /** perform_io dereferences a dead target exactly when the object is suspended and the caller
      gave no handler. */
  lemma CrashesIff(q: Queue, m: Message)
    requires !q.crashed
    ensures PerformIo(q, m).crashed <==> q.suspended && !q.targetAlive && m.handler.None?
  {
  }
}
