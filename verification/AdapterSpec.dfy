/**
  The state machine of one client_tcp_adapter, as functions on values.

  Objects of the surrounding program are numbers: an `ObjId` is an iinterface object that
  some weak_ptr may refer to, a `HandlerId` is an output_handler_t. Which objects are still
  alive is decided by the environment and handed in as a set.
*/
module AdapterSpec {
  import opened Prelude

  type ObjId = nat
  type HandlerId = nat

  /** client_tcp_config; `address` stands for everything handed through to the socket layer. */
  datatype Options = Options(startupPool: nat, primaryPool: nat, secondaryPool: nat,
                             keepAlive: bool, address: nat)

  const DEFAULT_OPTIONS := Options(1, 0, 0, true, 0)

  /** What `_holder` refers to: nothing, an outside object, or a perform_holder around a handler. */
  datatype Holder = Nobody | Source(obj: ObjId) | Reply(handler: Option<HandlerId>)

  /** Outcome of the one or two attempts of `perform_io` to hand the data to a connection. */
  datatype SendResult = Sent | SentOnNewConnection | NotSent

  /**
    `lent`, `fatal`, `errorsLogged`, `starts` and `stops` are the ledger: whether a reply callback
    over this adapter was handed out, whether the "several sources" branch was taken, how often a
    failure to send was logged, in which configuration the client was started and how often it was
    stopped.
  */
  datatype Adapter = Adapter(
    holderId: IoId, holder: Holder, performHolder: Holder, errorFlag: bool,
    keepAlive: bool, options: Options,
    lent: bool, fatal: bool, errorsLogged: nat, starts: seq<nat>, stops: nat)

  const NEW_ADAPTER := Adapter(0, Nobody, Nobody, false, false, DEFAULT_OPTIONS, false, false, 0, [], 0)

  function Start(a: Adapter, opt: Options, generation: nat): Adapter {
    a.(keepAlive := opt.keepAlive, options := opt, starts := a.starts + [generation])
  }

  function Stop(a: Adapter): Adapter {
    a.(stops := a.stops + 1)
  }

  /** A weak_ptr handed in from outside. */
  function FromWeak(itf: Option<ObjId>): Holder {
    if itf.Some? then Source(itf.value) else Nobody
  }

  /** `_holder.lock()`: a perform_holder lives exactly as long as `_perform_holder` owns it. */
  function Lock(a: Adapter, alive: set<ObjId>): Holder {
    match a.holder
    case Nobody => Nobody
    case Source(o) => if o in alive then a.holder else Nobody
    case Reply(_) => if a.performHolder == a.holder then a.holder else Nobody
  }

  predicate SeveralSources(a: Adapter, id: IoId) {
    a.holderId > 0 && a.holderId != id
  }

  function RegIo(a: Adapter, id: IoId, itf: Option<ObjId>): Adapter {
    a.(fatal := a.fatal || SeveralSources(a, id),
       holderId := id, holder := FromWeak(itf), performHolder := Nobody)
  }

  function UnregIo(a: Adapter, id: IoId): Adapter {
    if a.holderId != id then a else a.(holderId := 0, performHolder := Nobody)
  }

  /** The holder part of `perform_io`: a sender nobody answers for is wrapped by its handler. */
  function Adopt(a: Adapter, id: IoId, handler: Option<HandlerId>, alive: set<ObjId>): Adapter {
    if (Lock(a, alive) == Nobody || id == 0) && (handler.Some? || id == 0)
    then a.(performHolder := Reply(handler), holder := Reply(handler), holderId := id)
    else a
  }

  function PerformIo(a: Adapter, id: IoId, handler: Option<HandlerId>, alive: set<ObjId>, result: SendResult): Adapter {
    var b := Adopt(a, id, handler, alive);
    b.(errorFlag := result.NotSent?, errorsLogged := b.errorsLogged + One(result.NotSent? && !b.errorFlag))
  }

  /** Inbound data: without keep_alive the receiver gets a callback that sends over this adapter. */
  function Receive(a: Adapter, alive: set<ObjId>): Adapter {
    if Lock(a, alive) != Nobody && !a.keepAlive then a.(lent := true) else a
  }

  /** That callback is invoked, possibly long after the receiver has unregistered. */
  function Answer(a: Adapter, alive: set<ObjId>, result: SendResult): Adapter {
    if a.lent then PerformIo(a, a.holderId, None, alive, result) else a
  }
}
