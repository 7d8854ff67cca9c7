/** Responses without JSON-RPC are matched with the requests by their order alone. */
module TankRaw {
  import opened Prelude
  import opened TankSpec

  /** A request with the response it expects, or a response. */
  datatype Event = Request(expected: string) | Response(text: string)

  function Step(s: Tank, e: Event): Tank {
    match e
    case Request(res) => Issue(s, false, res)
    case Response(text) => CheckRaw(s, text).0
  }

  function Play(s: Tank, log: seq<Event>): Tank {
    if log == [] then s else Step(Play(s, log[..|log| - 1]), log[|log| - 1])
  }

  // ----- What the log alone says

  /** What the requests expect, in their order. */
  function Expected(log: seq<Event>): seq<string> {
    if log == [] then [] else
      var before := Expected(log[..|log| - 1]);
      match log[|log| - 1]
      case Request(res) => before + [res]
      case Response(_) => before
  }

  /** How many responses found a request that was still waiting for one. */
  function Matched(log: seq<Event>): (n: nat)
    ensures n <= |Expected(log)|
  {
    if log == [] then 0 else
      var before := log[..|log| - 1];
      match log[|log| - 1]
      case Request(_) => Matched(before)
      case Response(_) => Matched(before) + One(Matched(before) < |Expected(before)|)
  }

  // ----- Requests and responses in any order

  lemma StepKeepsOrder(s: Tank, start: Tank, before: seq<Event>, e: Event)
    requires s == start.(ioQueue := Expected(before)[Matched(before)..])
    ensures Step(s, e) == start.(ioQueue := Expected(before + [e])[Matched(before + [e])..])
  {
    assert (before + [e])[..|before|] == before;
  }

  /** For every interleaving of requests and responses: the queue is what the requests expect, in
      their order, without what was matched; ids and the table of calls are not touched. */
  lemma {:induction false} QueueIsUnmatched(s: Tank, log: seq<Event>)
    requires s.ioQueue == []
    ensures Play(s, log) == s.(ioQueue := Expected(log)[Matched(log)..])
    decreases |log|
  {
    if log != [] {
      var before, e := log[..|log| - 1], log[|log| - 1];
      QueueIsUnmatched(s, before);
      StepKeepsOrder(Play(s, before), s, before, e);
      assert log == before + [e];
    } else {
      assert s.(ioQueue := []) == s;
    }
  }

  /** The next response is compared with the first request that no earlier one was matched with: the
      i-th matched response passes iff it is what the i-th request expects. Without such a request
      it passes. */
  lemma PassesIffInOrder(s: Tank, log: seq<Event>, text: string)
    requires s.ioQueue == []
    ensures CheckRaw(Play(s, log), text).1 <==>
      (Matched(log) < |Expected(log)| ==> text == Expected(log)[Matched(log)])
  {
    QueueIsUnmatched(s, log);
    assert Matched(log) < |Expected(log)| ==> Expected(log)[Matched(log)..][0] == Expected(log)[Matched(log)];
  }

  function AfterRaw(s: Tank, responses: seq<string>): Tank
    decreases |responses|
  {
    if responses == [] then s else AfterRaw(CheckRaw(s, responses[0]).0, responses[1..])
  }

  predicate RawAllPass(s: Tank, responses: seq<string>)
    decreases |responses|
  {
    responses == [] || (CheckRaw(s, responses[0]).1 && RawAllPass(CheckRaw(s, responses[0]).0, responses[1..]))
  }

  /** Raw responses pass iff they come in the order of the requests, as far as any are expected. */
  lemma {:induction false} RawPassesInOrder(s: Tank, responses: seq<string>)
    ensures RawAllPass(s, responses) <==>
      forall i :: 0 <= i < |responses| && i < |s.ioQueue| ==> responses[i] == s.ioQueue[i]
    ensures AfterRaw(s, responses).ioQueue ==
      if |responses| <= |s.ioQueue| then s.ioQueue[|responses|..] else []
    decreases |responses|
  {
    if responses != [] {
      var t := CheckRaw(s, responses[0]).0;
      RawPassesInOrder(t, responses[1..]);
      if s.ioQueue != [] {
        assert forall i :: 0 <= i < |responses| - 1 && i < |s.ioQueue| - 1 ==>
          (responses[1..][i] == t.ioQueue[i] <==> responses[i + 1] == s.ioQueue[i + 1]);
        assert forall i :: 1 <= i < |responses| ==> responses[i] == responses[1..][i - 1];
        assert forall i :: 1 <= i < |s.ioQueue| ==> s.ioQueue[i] == t.ioQueue[i - 1];
      }
    }
  }
}
