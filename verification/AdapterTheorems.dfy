/** One adapter over any sequence of calls, data and late answers, whoever makes them. */
module AdapterTheorems {
  import opened Prelude
  import opened AdapterSpec

  datatype Act =
    | Registers(id: IoId, itf: Option<ObjId>)
    | Leaves(id: IoId)
    | Sends(id: IoId, handler: Option<HandlerId>, alive: set<ObjId>, result: SendResult)
    | Receives(alive: set<ObjId>)
    | Answers(alive: set<ObjId>, result: SendResult)

  function Do(x: Adapter, e: Act): Adapter {
    match e
    case Registers(id, itf) => RegIo(x, id, itf)
    case Leaves(id) => UnregIo(x, id)
    case Sends(id, h, alive, r) => PerformIo(x, id, h, alive, r)
    case Receives(alive) => Receive(x, alive)
    case Answers(alive, r) => Answer(x, alive, r)
  }

  function After(x: Adapter, log: seq<Act>): Adapter {
    if log == [] then x else Do(After(x, log[..|log| - 1]), log[|log| - 1])
  }

  // ----- Who the source is

  /** The id that takes the adapter over: by registering, or by a message that finds no live holder and
      brings a handler, or comes without an id. */
  function TakenBy(x: Adapter, e: Act): Option<IoId> {
    match e
    case Registers(id, _) => Some(id)
    case Sends(id, h, alive, _) =>
      if id == 0 || (Lock(x, alive) == Nobody && h.Some?) then Some(id) else None
    case Answers(_, _) => if x.lent && x.holderId == 0 then Some(0) else None
    case _ => None
  }

  /** The i-th act made `id` the source, and since then nobody took over and `id` did not leave. */
  predicate SourceSince(x: Adapter, log: seq<Act>, i: int, id: IoId) {
    && 0 <= i < |log| && TakenBy(After(x, log[..i]), log[i]) == Some(id)
    && forall j :: i < j < |log| ==> !EndsSource(After(x, log[..j]), log[j], id)
  }

  predicate EndsSource(x: Adapter, e: Act, id: IoId) {
    e == Leaves(id) || (TakenBy(x, e).Some? && TakenBy(x, e) != Some(id))
  }

  ghost predicate IsSource(x: Adapter, log: seq<Act>, id: IoId) {
    exists i :: SourceSince(x, log, i, id)
  }

  lemma IsSourceSnoc(x: Adapter, before: seq<Act>, e: Act, id: IoId)
    ensures var b := After(x, before);
      IsSource(x, before + [e], id) <==>
        TakenBy(b, e) == Some(id) || (IsSource(x, before, id) && !EndsSource(b, e, id))
  {
    var log, n := before + [e], |before|;
    assert log[..n] == before && log[n] == e;
    assert forall j :: 0 <= j <= n ==> log[..j] == before[..j];
    if i :| SourceSince(x, log, i, id) {
      assert i < n ==> SourceSince(x, before, i, id) && !EndsSource(After(x, log[..n]), log[n], id);
    }
    if TakenBy(After(x, before), e) == Some(id) { assert SourceSince(x, log, n, id); }
    if IsSource(x, before, id) && !EndsSource(After(x, before), e, id) {
      var i :| SourceSince(x, before, i, id);
      assert SourceSince(x, log, i, id);
    }
  }

  lemma ActMovesSource(x: Adapter, e: Act, id: IoId)
    requires id > 0
    ensures Do(x, e).holderId == id <==> TakenBy(x, e) == Some(id) || (x.holderId == id && !EndsSource(x, e, id))
  {
  }

  /** An id is the source iff it took the adapter over and since then neither left nor was replaced;
      an unreg_io of any other id does not end it. */
  lemma {:induction false} SourceIff(x: Adapter, log: seq<Act>, id: IoId)
    requires x.holderId == 0 && id > 0
    ensures After(x, log).holderId == id <==> IsSource(x, log, id)
    decreases |log|
  {
    if log != [] {
      var before, e := log[..|log| - 1], log[|log| - 1];
      assert log == before + [e];
      SourceIff(x, before, id);
      ActMovesSource(After(x, before), e, id);
      IsSourceSnoc(x, before, e, id);
    }
  }

  // ----- What it owns

  /** The only wrapper an adapter keeps alive is the one that holds it. */
  predicate OwnsOnlyItsHolder(x: Adapter) {
    x.performHolder == Nobody || x.performHolder == x.holder
  }

  lemma {:induction false} WrapperIsHolder(x: Adapter, log: seq<Act>)
    requires OwnsOnlyItsHolder(x)
    ensures OwnsOnlyItsHolder(After(x, log))
    decreases |log|
  {
    if log != [] {
      WrapperIsHolder(x, log[..|log| - 1]);
      ActKeepsWrapper(After(x, log[..|log| - 1]), log[|log| - 1]);
    }
  }

  lemma ActKeepsWrapper(x: Adapter, e: Act)
    requires OwnsOnlyItsHolder(x)
    ensures OwnsOnlyItsHolder(Do(x, e))
  {
  }

  /** After a registration or the source's unreg_io it keeps none at all. */
  lemma NoWrapperAfter(x: Adapter, log: seq<Act>, e: Act)
    requires OwnsOnlyItsHolder(x) && (e.Registers? || (e.Leaves? && After(x, log).holderId == e.id))
    ensures After(x, log + [e]).performHolder == Nobody
  {
    assert (log + [e])[..|log|] == log;
    WrapperIsHolder(x, log);
    ActKeepsWrapper(After(x, log), e);
  }

  // ----- Failures to send

  /** Which attempts to send failed, late answers included. */
  function Failures(x: Adapter, log: seq<Act>): seq<bool> {
    if log == [] then [] else
      var before := log[..|log| - 1];
      match log[|log| - 1]
      case Sends(_, _, _, r) => Failures(x, before) + [r == NotSent]
      case Answers(_, r) => if After(x, before).lent then Failures(x, before) + [r == NotSent] else Failures(x, before)
      case _ => Failures(x, before)
  }

  /** How many times sending began to fail. */
  function Outages(failures: seq<bool>): nat {
    if failures == [] then 0 else
      var n := |failures|;
      Outages(failures[..n - 1]) + One(failures[n - 1] && (n == 1 || !failures[n - 2]))
  }

  ghost predicate LoggedSo(x: Adapter, y: Adapter, failures: seq<bool>) {
    && y.errorsLogged == x.errorsLogged + Outages(failures)
    && (y.errorFlag <==> failures != [] && failures[|failures| - 1])
  }

  lemma SendLogs(x: Adapter, y: Adapter, failures: seq<bool>, id: IoId, h: Option<HandlerId>,
                 alive: set<ObjId>, r: SendResult)
    requires LoggedSo(x, y, failures)
    ensures LoggedSo(x, PerformIo(y, id, h, alive, r), failures + [r == NotSent])
  {
    assert (failures + [r == NotSent])[..|failures|] == failures;
  }

  /** An error is logged once per outage: when an attempt to send fails and the one before it, if there
      was one, did not. */
  lemma {:induction false} LogsOncePerOutage(x: Adapter, log: seq<Act>)
    requires !x.errorFlag
    ensures LoggedSo(x, After(x, log), Failures(x, log))
    decreases |log|
  {
    if log != [] {
      var before, e := log[..|log| - 1], log[|log| - 1];
      var y := After(x, before);
      LogsOncePerOutage(x, before);
      match e
      case Sends(id, h, alive, r) => SendLogs(x, y, Failures(x, before), id, h, alive, r);
      case Answers(alive, r) => if y.lent { SendLogs(x, y, Failures(x, before), y.holderId, None, alive, r); }
      case _ =>
    }
  }
}
