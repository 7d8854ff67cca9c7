/**
  The queue as a value: two workflows (one for messages, one for replies), each a sequence of
  posted tasks, and a record of what the target and the reply handlers have seen.

  A message is named by its number in the order of acceptance. Closures are represented by what
  they capture.
*/
module QueueSpec {
  import opened Prelude

  type Data = string
  type HandlerId = nat

  /** What a caller hands to perform_io. */
  datatype Message = Message(data: Data, ioId: IoId, handler: Option<HandlerId>)

  /** The task posted for message `serial`; `valid` until its id is unregistered. */
  datatype Task = Task(serial: nat, msg: Message, valid: bool)

  /** The handler given to the target: the caller's own, or one that posts to the reply workflow. */
  datatype Hook = NoHook | Direct(handler: HandlerId) | Posting(handler: HandlerId)

  datatype Call = Call(serial: nat, msg: Message, hook: Hook)

  /** A reply handler called with data, or with nullptr. */
  datatype Reply = Reply(serial: nat, handler: HandlerId, data: Option<Data>)

  /**
    `accepted` counts the messages; `called`, `refused` and `dropped` say what became of those no
    longer pending; `answered` lists the target's answers and `fired` the calls of reply handlers.
  */
  datatype Queue = Queue(
    suspended: bool, callbackWorkflow: bool, tracking: bool, targetAlive: bool, queueAlive: bool,
    accepted: nat, forward: seq<Task>, back: seq<Reply>,
    called: seq<Call>, refused: seq<Task>, dropped: seq<Task>,
    answered: seq<Reply>, fired: seq<Reply>, crashed: bool)

  function NewQueue(suspended: bool, callbackWorkflow: bool, tracking: bool): Queue {
    Queue(suspended, callbackWorkflow, tracking, true, true, 0, [], [], [], [], [], [], [], false)
  }

  /** make_handler_ */
  function MakeHandler(q: Queue, handler: Option<HandlerId>): Hook {
    if handler.None? then NoHook
    else if q.callbackWorkflow then Posting(handler.value) else Direct(handler.value)
  }

  /** handler(nullptr), if there is a handler */
  function Nullptr(t: Task): seq<Reply> {
    if t.msg.handler.Some? then [Reply(t.serial, t.msg.handler.value, None)] else []
  }

  function Refuse(q: Queue, t: Task): Queue {
    q.(refused := q.refused + [t], fired := q.fired + Nullptr(t))
  }

  /** perform_io */
  function PerformIo(q: Queue, m: Message): Queue {
    var t := Task(q.accepted, m, true);
    if !q.targetAlive && m.handler.Some? then
      Refuse(q, t).(accepted := q.accepted + 1)
    else if q.suspended then
      if !q.targetAlive then q.(crashed := true)
      else q.(accepted := q.accepted + 1,
              called := q.called + [Call(t.serial, m, if m.handler.Some? then Direct(m.handler.value) else NoHook)])
    else q.(accepted := q.accepted + 1, forward := q.forward + [t])
  }

  /** The oldest task of the message workflow runs. */
  function RunForward(q: Queue): Queue {
    if q.forward == [] then q else
      var t := q.forward[0];
      var r := q.(forward := q.forward[1..]);
      if !t.valid || !q.queueAlive then r.(dropped := r.dropped + [t])
      else if q.targetAlive then r.(called := r.called + [Call(t.serial, t.msg, MakeHandler(q, t.msg.handler))])
      else Refuse(r, t)
  }

  /** The message workflow drops task i instead of running it. */
  function Overflow(q: Queue, i: nat): Queue {
    if i >= |q.forward| then q else
      Refuse(q.(forward := q.forward[..i] + q.forward[i + 1..]), q.forward[i])
  }

  /** The target calls the handler it got with its k-th call. */
  function Answer(q: Queue, k: nat, data: Option<Data>): Queue {
    if k >= |q.called| then q else
      var c := q.called[k];
      match c.hook
      case NoHook => q
      case Direct(h) =>
        var r := Reply(c.serial, h, data);
        q.(answered := q.answered + [r], fired := q.fired + [r])
      case Posting(h) =>
        var r := Reply(c.serial, h, data);
        if q.queueAlive then q.(answered := q.answered + [r], back := q.back + [r])
        else q.(answered := q.answered + [r], fired := q.fired + [r])
  }

  function RunBack(q: Queue): Queue {
    if q.back == [] then q else q.(back := q.back[1..], fired := q.fired + [q.back[0]])
  }

  /** The reply workflow drops task i: its handler is called with nullptr. */
  function BackOverflow(q: Queue, i: nat): Queue {
    if i >= |q.back| then q else
      q.(back := q.back[..i] + q.back[i + 1..], fired := q.fired + [q.back[i].(data := None)])
  }

  function Invalidated(tasks: seq<Task>, id: IoId): (r: seq<Task>)
    ensures |r| == |tasks|
    ensures forall i :: 0 <= i < |tasks| ==>
      r[i] == if tasks[i].msg.ioId == id then tasks[i].(valid := false) else tasks[i]
  {
    seq(|tasks|, i requires 0 <= i < |tasks| =>
      if tasks[i].msg.ioId == id then tasks[i].(valid := false) else tasks[i])
  }

  /** unreg_io: with tracking, what is pending for the id will not run. */
  function UnregIo(q: Queue, id: IoId): Queue {
    if q.tracking then q.(forward := Invalidated(q.forward, id)) else q
  }

  datatype Event =
    | Perform(msg: Message)
    | RunsForward
    | Overflows(task: nat)
    | Answers(call: nat, data: Option<Data>)
    | RunsBack
    | BackOverflows(reply: nat)
    | Unregisters(id: IoId)
    | TargetDies
    | QueueDies

  function Step(q: Queue, e: Event): Queue {
    match e
    case Perform(m) => PerformIo(q, m)
    case RunsForward => RunForward(q)
    case Overflows(i) => Overflow(q, i)
    case Answers(k, data) => Answer(q, k, data)
    case RunsBack => RunBack(q)
    case BackOverflows(i) => BackOverflow(q, i)
    case Unregisters(id) => UnregIo(q, id)
    case TargetDies => q.(targetAlive := false)
    case QueueDies => q.(queueAlive := false)
  }

  function Play(q: Queue, events: seq<Event>): Queue {
    if events == [] then q else Step(Play(q, events[..|events| - 1]), events[|events| - 1])
  }
}
