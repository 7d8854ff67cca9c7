/** queue as an object, together with the two workflows it posts to. */
module QueueObjects {
  import opened Prelude
  import opened QueueSpec

  /**
    `forward` and `back` are the workflows' queues; `targetAlive` and `alive` are what locking the
    weak pointers to the target and to the queue itself would find. The ghost fields record what
    target and handlers have seen.
  */
  class IoQueue {
    const suspended: bool
    const callbackWorkflow: bool
    const tracking: bool
    var targetAlive: bool
    var alive: bool
    var accepted: nat
    var forward: seq<Task>
    var back: seq<Reply>
    ghost var called: seq<Call>
    ghost var refused: seq<Task>
    ghost var dropped: seq<Task>
    ghost var answered: seq<Reply>
    ghost var fired: seq<Reply>
    ghost var crashed: bool

    ghost function State(): Queue
      reads this
    {
      Queue(suspended, callbackWorkflow, tracking, targetAlive, alive, accepted, forward, back,
            called, refused, dropped, answered, fired, crashed)
    }

    constructor (suspended: bool, callbackWorkflow: bool, tracking: bool)
      ensures State() == NewQueue(suspended, callbackWorkflow, tracking)
    {
      this.suspended, this.callbackWorkflow, this.tracking := suspended, callbackWorkflow, tracking;
      targetAlive, alive, accepted, forward, back := true, true, 0, [], [];
      called, refused, dropped, answered, fired, crashed := [], [], [], [], [], false;
    }

    /** handler(nullptr) instead of passing the message on */
    method RefuseTask(t: Task)
      modifies this`refused, this`fired
      ensures State() == Refuse(old(State()), t)
    {
      refused := refused + [t];
      fired := fired + Nullptr(t);
    }

    /** make_handler_ */
    method MakeHandler(handler: Option<HandlerId>) returns (hook: Hook)
      ensures hook == QueueSpec.MakeHandler(State(), handler)
    {
      if !callbackWorkflow || handler.None? {
        hook := if handler.Some? then Direct(handler.value) else NoHook;
      } else {
        hook := Posting(handler.value);
      }
    }

    method CallTarget(serial: nat, msg: Message, hook: Hook)
      modifies this`called
      ensures State() == old(State()).(called := old(State()).called + [Call(serial, msg, hook)])
    {
      called := called + [Call(serial, msg, hook)];
    }

    method PerformIo(msg: Message)
      modifies this
      ensures State() == QueueSpec.PerformIo(old(State()), msg)
    {
      var t := Task(accepted, msg, true);
      if !targetAlive {
        if msg.handler.Some? {
          accepted := accepted + 1;
          RefuseTask(t);
          return;
        }
      }
      if suspended {
        if !targetAlive {
          crashed := true;
          return;
        }
        accepted := accepted + 1;
        CallTarget(t.serial, msg, if msg.handler.Some? then Direct(msg.handler.value) else NoHook);
        return;
      }
      accepted := accepted + 1;
      forward := forward + [t];
    }

    /** The posted task, run by the message workflow. */
    method RunForward()
      modifies this
      ensures State() == QueueSpec.RunForward(old(State()))
    {
      if forward == [] {
        return;
      }
      var t := forward[0];
      forward := forward[1..];
      if !t.valid {
        dropped := dropped + [t];
      } else if alive {
        if targetAlive {
          var hook := MakeHandler(t.msg.handler);
          CallTarget(t.serial, t.msg, hook);
        } else {
          RefuseTask(t);
        }
      } else {
        dropped := dropped + [t];
      }
    }

    /** The drop handler of a posted task. */
    method Overflow(i: nat)
      modifies this
      ensures State() == QueueSpec.Overflow(old(State()), i)
    {
      if i < |forward| {
        var t := forward[i];
        forward := forward[..i] + forward[i + 1..];
        RefuseTask(t);
      }
    }

    /** The handler given to the target, called by it. */
    method Answer(call: Call, data: Option<Data>)
      requires call in called
      modifies this
      ensures forall k :: 0 <= k < |old(called)| && old(called)[k] == call ==>
        State() == QueueSpec.Answer(old(State()), k, data)
    {
      match call.hook {
        case NoHook =>
        case Direct(h) =>
          answered := answered + [Reply(call.serial, h, data)];
          fired := fired + [Reply(call.serial, h, data)];
        case Posting(h) =>
          answered := answered + [Reply(call.serial, h, data)];
          if alive {
            back := back + [Reply(call.serial, h, data)];
          } else {
            fired := fired + [Reply(call.serial, h, data)];
          }
      }
    }

    /** The posted reply, run by the reply workflow. */
    method RunBack()
      modifies this
      ensures State() == QueueSpec.RunBack(old(State()))
    {
      if back != [] {
        fired := fired + [back[0]];
        back := back[1..];
      }
    }

    /** The drop handler of a posted reply. */
    method BackOverflow(i: nat)
      modifies this
      ensures State() == QueueSpec.BackOverflow(old(State()), i)
    {
      if i < |back| {
        fired := fired + [back[i].(data := None)];
        back := back[..i] + back[i + 1..];
      }
    }

    method UnregIo(id: IoId)
      modifies this`forward
      ensures State() == QueueSpec.UnregIo(old(State()), id)
    {
      if tracking {
        forward := Invalidated(forward, id);
      }
    }
  }
}
