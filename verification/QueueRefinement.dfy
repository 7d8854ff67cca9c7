/** The queue as a slower form of passing messages through. */
module QueueRefinement {
  import opened Prelude
  import opened QueueSpec

  /** A target that answers during the call, as a function of all calls it has seen. */
  type Target = seq<Message> -> seq<Option<Data>>

  /** Three things happen when nothing is dropped and nobody dies. */
  datatype Tick = Arrive(msg: Message) | Forward | Back

  function Messages(calls: seq<Call>): seq<Message> {
    Mapped(calls, (c: Call) => c.msg)
  }

  /** The target answers its latest call with each of `data` in turn. */
  function AnswerAll(q: Queue, k: nat, data: seq<Option<Data>>): Queue {
    if data == [] then q else Answer(AnswerAll(q, k, data[..|data| - 1]), k, data[|data| - 1])
  }

  /** A step q -> r after which the target, if it was called, has answered. */
  function Answered(q: Queue, r: Queue, target: Target): Queue {
    if |r.called| > |q.called| then AnswerAll(r, |r.called| - 1, target(Messages(r.called))) else r
  }

  function TickOf(q: Queue, t: Tick, target: Target): Queue {
    match t
    case Arrive(m) => Answered(q, PerformIo(q, m), target)
    case Forward => Answered(q, RunForward(q), target)
    case Back => RunBack(q)
  }

  function Live(q: Queue, ticks: seq<Tick>, target: Target): Queue {
    if ticks == [] then q else TickOf(Live(q, ticks[..|ticks| - 1], target), ticks[|ticks| - 1], target)
  }

  function Arrivals(ticks: seq<Tick>): seq<Message> {
    if ticks == [] then [] else
      Arrivals(ticks[..|ticks| - 1]) + (match ticks[|ticks| - 1] case Arrive(m) => [m] case _ => [])
  }

  /** The reference: what handlers hear when these messages are passed straight through. */
  function Heard(messages: seq<Message>, target: Target): seq<Reply> {
    if messages == [] then [] else
      var last := |messages| - 1;
      Heard(messages[..last], target) + HeardFor(messages[last], last, target(messages))
  }

  function HeardFor(m: Message, serial: nat, data: seq<Option<Data>>): seq<Reply> {
    if m.handler.None? then [] else seq(|data|, i requires 0 <= i < |data| => Reply(serial, m.handler.value, data[i]))
  }

  // ----- What one call adds

  /** The replies to call c. */
  function RepliesTo(c: Call, data: seq<Option<Data>>): (r: seq<Reply>)
    ensures c.hook.NoHook? ==> r == []
    ensures !c.hook.NoHook? ==>
      |r| == |data| && forall i :: 0 <= i < |data| ==> r[i] == Reply(c.serial, c.hook.handler, data[i])
  {
    if c.hook.NoHook? then [] else seq(|data|, i requires 0 <= i < |data| => Reply(c.serial, c.hook.handler, data[i]))
  }

  lemma RepliesToSnoc(c: Call, data: seq<Option<Data>>, last: Option<Data>)
    ensures RepliesTo(c, data + [last]) == RepliesTo(c, data) + RepliesTo(c, [last])
    ensures forall s: seq<Reply> :: s + RepliesTo(c, data + [last]) == (s + RepliesTo(c, data)) + RepliesTo(c, [last])
  {
  }

  /** Only replies have been added. */
  predicate SameButReplies(q: Queue, r: Queue) {
    && r.suspended == q.suspended && r.callbackWorkflow == q.callbackWorkflow && r.tracking == q.tracking
    && r.targetAlive == q.targetAlive && r.queueAlive == q.queueAlive
    && r.accepted == q.accepted && r.forward == q.forward && r.called == q.called
  }

  lemma {:induction false} AnswerAllAdds(q: Queue, k: nat, data: seq<Option<Data>>, r: Queue)
    requires k < |q.called| && q.queueAlive && r == AnswerAll(q, k, data)
    ensures SameButReplies(q, r)
    ensures r.fired == if q.called[k].hook.Direct? then q.fired + RepliesTo(q.called[k], data) else q.fired
    ensures r.back == if q.called[k].hook.Posting? then q.back + RepliesTo(q.called[k], data) else q.back
    decreases |data|
  {
    if data != [] {
      var before, last := data[..|data| - 1], data[|data| - 1];
      var p := AnswerAll(q, k, before);
      AnswerAllAdds(q, k, before, p);
      assert data == before + [last];
      RepliesToSnoc(q.called[k], before, last);
      OneAnswerAdds(p, k, last, r);
    }
  }

  lemma OneAnswerAdds(q: Queue, k: nat, data: Option<Data>, r: Queue)
    requires k < |q.called| && q.queueAlive && r == Answer(q, k, data)
    ensures SameButReplies(q, r)
    ensures r.fired == if q.called[k].hook.Direct? then q.fired + RepliesTo(q.called[k], [data]) else q.fired
    ensures r.back == if q.called[k].hook.Posting? then q.back + RepliesTo(q.called[k], [data]) else q.back
  {
  }

  /** The handler that the target got stands for the caller's. */
  predicate StandsFor(hook: Hook, handler: Option<HandlerId>) {
    if handler.None? then hook.NoHook? else !hook.NoHook? && hook.handler == handler.value
  }

  lemma HeardSnoc(ms: seq<Message>, m: Message, target: Target)
    ensures Heard(ms + [m], target) == Heard(ms, target) + HeardFor(m, |ms|, target(ms + [m]))
  {
    assert (ms + [m])[..|ms|] == ms;
  }

  lemma MessagesSnoc(calls: seq<Call>, c: Call)
    ensures Messages(calls + [c]) == Messages(calls) + [c.msg]
  {
  }

  lemma HeardForIsRepliesTo(c: Call, data: seq<Option<Data>>)
    requires StandsFor(c.hook, c.msg.handler)
    ensures HeardFor(c.msg, c.serial, data) == RepliesTo(c, data)
  {
  }

  /** q with one more call, answered at once. */
  function Called(q: Queue, c: Call, target: Target): Queue {
    var r := q.(called := q.called + [c]);
    AnswerAll(r, |q.called|, target(Messages(r.called)))
  }

  /** What handlers have heard or will hear grows accordingly. */
  lemma CallAddsHeard(q: Queue, c: Call, target: Target, s: Queue)
    requires q.queueAlive && c.serial == |q.called| && StandsFor(c.hook, c.msg.handler)
    requires q.fired + q.back == Heard(Messages(q.called), target)
    requires c.hook.Direct? ==> q.back == []
    requires s == Called(q, c, target)
    ensures SameButReplies(q.(called := q.called + [c]), s)
    ensures s.fired + s.back == Heard(Messages(s.called), target)
    ensures !c.hook.Posting? ==> s.back == q.back
  {
    var r := q.(called := q.called + [c]);
    MessagesSnoc(q.called, c);
    HeardSnoc(Messages(q.called), c.msg, target);
    var data := target(Messages(r.called));
    AnswerAllAdds(r, |q.called|, data, s);
    HeardForIsRepliesTo(c, data);
    ConcatAssoc(q.fired, q.back, RepliesTo(c, data));
  }

  lemma ConcatAssoc(a: seq<Reply>, b: seq<Reply>, c: seq<Reply>)
    ensures (a + b) + c == a + (b + c)
    ensures b == [] ==> (a + b) + c == (a + c) + b
  {
  }

  // ----- The live queue

  function Pending(tasks: seq<Task>): seq<Message> {
    Mapped(tasks, (t: Task) => t.msg)
  }

  /** Nothing is lost, and everything is in order. */
  predicate InOrder(q: Queue, arrived: seq<Message>, target: Target) {
    && q.targetAlive && q.queueAlive && q.accepted == |arrived| == |q.called| + |q.forward|
    && Messages(q.called) + Pending(q.forward) == arrived
    && (forall i :: 0 <= i < |q.forward| ==> q.forward[i].valid && q.forward[i].serial == |q.called| + i)
    && (q.callbackWorkflow || q.back == [])
    && (q.suspended ==> q.forward == [] && q.back == [])
    && q.fired + q.back == Heard(Messages(q.called), target)
  }

  lemma ArriveSuspended(q: Queue, arrived: seq<Message>, m: Message, target: Target, s: Queue)
    requires InOrder(q, arrived, target) && q.suspended && s == TickOf(q, Arrive(m), target)
    ensures InOrder(s, arrived + [m], target) && s.suspended == q.suspended
  {
    var c := Call(q.accepted, m, if m.handler.Some? then Direct(m.handler.value) else NoHook);
    var p := q.(accepted := q.accepted + 1);
    assert s == Called(p, c, target);
    CallAddsHeard(p, c, target, s);
    MessagesSnoc(q.called, c);
    assert Messages(q.called) + Pending([]) == Messages(q.called);
    assert Messages(s.called) + Pending([]) == Messages(s.called);
  }

  lemma ArriveLive(q: Queue, arrived: seq<Message>, m: Message, target: Target, s: Queue)
    requires InOrder(q, arrived, target) && !q.suspended && s == TickOf(q, Arrive(m), target)
    ensures InOrder(s, arrived + [m], target) && s.suspended == q.suspended
  {
    assert s == PerformIo(q, m);
    assert Pending(s.forward) == Pending(q.forward) + [m];
    assert Messages(q.called) + (Pending(q.forward) + [m]) == arrived + [m];
  }

  lemma ForwardInOrder(q: Queue, arrived: seq<Message>, target: Target, s: Queue)
    requires InOrder(q, arrived, target) && s == TickOf(q, Forward, target)
    ensures InOrder(s, arrived, target) && s.suspended == q.suspended
  {
    if q.forward != [] {
      var t := q.forward[0];
      var c := Call(t.serial, t.msg, MakeHandler(q, t.msg.handler));
      var p := q.(forward := q.forward[1..]);
      assert t.valid && RunForward(q) == p.(called := p.called + [c]);
      assert s == Called(p, c, target);
      assert forall i :: 0 <= i < |p.forward| ==> p.forward[i] == q.forward[i + 1];
      CallAddsHeard(p, c, target, s);
      MessagesSnoc(q.called, c);
      MovedOver(Messages(q.called), q.forward);
    }
  }

  lemma MovedOver(ms: seq<Message>, tasks: seq<Task>)
    requires tasks != []
    ensures ms + Pending(tasks) == (ms + [tasks[0].msg]) + Pending(tasks[1..])
  {
    assert Pending(tasks) == [tasks[0].msg] + Pending(tasks[1..]);
  }

  lemma BackInOrder(q: Queue, arrived: seq<Message>, target: Target, s: Queue)
    requires InOrder(q, arrived, target) && s == RunBack(q)
    ensures InOrder(s, arrived, target) && s.suspended == q.suspended
  {
    if q.back != [] {
      assert q.fired + q.back == (q.fired + [q.back[0]]) + q.back[1..];
    }
  }

  lemma TickInOrder(q: Queue, arrived: seq<Message>, t: Tick, target: Target, s: Queue)
    requires InOrder(q, arrived, target) && s == TickOf(q, t, target)
    ensures InOrder(s, if t.Arrive? then arrived + [t.msg] else arrived, target) && s.suspended == q.suspended
  {
    match t
    case Arrive(m) =>
      if q.suspended { ArriveSuspended(q, arrived, m, target, s); } else { ArriveLive(q, arrived, m, target, s); }
    case Forward => ForwardInOrder(q, arrived, target, s);
    case Back => BackInOrder(q, arrived, target, s);
  }

  lemma {:induction false} AlwaysInOrder(q: Queue, ticks: seq<Tick>, target: Target, s: Queue)
    requires InOrder(q, [], target) && s == Live(q, ticks, target)
    ensures InOrder(s, Arrivals(ticks), target) && s.suspended == q.suspended
    decreases |ticks|
  {
    if ticks != [] {
      var before := ticks[..|ticks| - 1];
      AlwaysInOrder(q, before, target, Live(q, before, target));
      TickInOrder(Live(q, before, target), Arrivals(before), ticks[|ticks| - 1], target, s);
      if !ticks[|ticks| - 1].Arrive? { assert Arrivals(ticks) == Arrivals(before); }
    }
  }

  lemma {:induction false} HeardIsMonotonic(a: seq<Message>, b: seq<Message>, target: Target)
    ensures Heard(a, target) <= Heard(a + b, target)
    decreases |b|
  {
    if b == [] {
      assert a + b == a;
    } else {
      var last := |b| - 1;
      HeardIsMonotonic(a, b[..last], target);
      assert (a + b)[..|a + b| - 1] == a + b[..last];
    }
  }

  /** Under every schedule of the two workflows, with or without a reply workflow: the target has
      been called with a prefix of what arrived, the handlers have heard a prefix of what
      pass-through lets them hear, and when both workflows are empty both are complete. */
  lemma QueueRefinesPassThrough(callbackWorkflow: bool, tracking: bool, ticks: seq<Tick>, target: Target)
    ensures var q := Live(NewQueue(false, callbackWorkflow, tracking), ticks, target);
      && Messages(q.called) <= Arrivals(ticks)
      && q.fired <= Heard(Arrivals(ticks), target)
      && (q.forward == [] && q.back == [] ==>
            Messages(q.called) == Arrivals(ticks) && q.fired == Heard(Arrivals(ticks), target))
  {
    var q := Live(NewQueue(false, callbackWorkflow, tracking), ticks, target);
    AlwaysInOrder(NewQueue(false, callbackWorkflow, tracking), ticks, target, q);
    HeardIsMonotonic(Messages(q.called), Pending(q.forward), target);
    assert q.fired <= q.fired + q.back;
    if q.forward == [] && q.back == [] {
      assert Messages(q.called) + Pending(q.forward) == Messages(q.called) && q.fired + q.back == q.fired;
    }
  }

  /** Suspended mode is pass-through: nothing is ever pending. */
  lemma SuspendedPassesThrough(callbackWorkflow: bool, tracking: bool, ticks: seq<Tick>, target: Target)
    ensures var q := Live(NewQueue(true, callbackWorkflow, tracking), ticks, target);
      Messages(q.called) == Arrivals(ticks) && q.fired == Heard(Arrivals(ticks), target)
  {
    var q := Live(NewQueue(true, callbackWorkflow, tracking), ticks, target);
    AlwaysInOrder(NewQueue(true, callbackWorkflow, tracking), ticks, target, q);
    assert Messages(q.called) + Pending(q.forward) == Messages(q.called) && q.fired + q.back == q.fired;
  }
}
