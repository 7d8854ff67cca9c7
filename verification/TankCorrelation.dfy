/** Matching responses to calls. */
module TankCorrelation {
  import opened Prelude
  import opened Divisibility
  import opened TankSpec

  /** `Elsewhere`: another tank takes an id; all tanks count with the same `_call_id`. */
  datatype Event = Call(res: string) | Elsewhere | Answer(response: Response)

  function Step(s: Tank, e: Event): Tank {
    match e
    case Call(res) => Issue(s, true, res)
    case Elsewhere => s.(callId := NextId(s.callId))
    case Answer(r) => CheckCall(s, r).0
  }

  function Play(s: Tank, log: seq<Event>): Tank {
    if log == [] then s else Step(Play(s, log[..|log| - 1]), log[|log| - 1])
  }

  /** A number that fits an int, and the id of the n-th call after it. */
  predicate IsInt(id: int) {
    -MAX_INT - 1 <= id <= MAX_INT
  }

  function IdOf(start: int, n: nat): int {
    if n == 0 then start else NextId(IdOf(start, n - 1))
  }

  lemma {:induction false} IdOfIsCongruent(start: int, n: nat)
    requires IsInt(start)
    ensures IsInt(IdOf(start, n)) && Divides(CALL_IDS, start + n - IdOf(start, n))
  {
    if n == 0 {
      MultipleDivides(CALL_IDS, 0);
    } else {
      IdOfIsCongruent(start, n - 1);
      var d := start + n - 1 - IdOf(start, n - 1);
      MultipleDivides(CALL_IDS, 1);
      DividesSum(CALL_IDS, d, CALL_IDS);
    }
  }

  /** Two calls share an id iff their numbers differ by a multiple of 2^32. */
  lemma SameIdIff(start: int, m: nat, n: nat)
    requires IsInt(start)
    ensures IdOf(start, m) == IdOf(start, n) <==> (n - m) % CALL_IDS == 0
  {
    IdOfIsCongruent(start, m);
    IdOfIsCongruent(start, n);
    var a, b := IdOf(start, m), IdOf(start, n);
    DividesSum(CALL_IDS, start + n - b, start + m - a);
    assert (start + n - b) - (start + m - a) == (n - m) - (b - a);
    if Divides(CALL_IDS, n - m) {
      DividesSum(CALL_IDS, n - m, (n - m) - (b - a));
      SmallMultipleIsZero(CALL_IDS, b - a);
    }
  }

  lemma SmallMultipleIsZero(m: int, d: int)
    requires m > 0 && Divides(m, d) && -m < d < m
    ensures d == 0
  {
    var q := DividesWitness(m, d);
    assert q >= 1 ==> m * q >= m;
    assert q <= -1 ==> m * q <= -m;
  }

  // ----- The reference: calls of all tanks by number, which never wraps

  function Issued(log: seq<Event>): nat {
    if log == [] then 0 else Issued(log[..|log| - 1]) + One(!log[|log| - 1].Answer?)
  }

  /** The calls this tank has issued and not yet seen matched, by number. */
  function Outstanding(start: int, log: seq<Event>): map<nat, string> {
    if log == [] then map[] else
      var before := log[..|log| - 1];
      var open := Outstanding(start, before);
      match log[|log| - 1]
      case Call(res) => open[Issued(before) + 1 := res]
      case Elsewhere => open
      case Answer(Result(id, _)) => map n | n in open && IdOf(start, n) != id :: open[n]
      case Answer(_) => open
  }

  /** No call is issued at a distance of a multiple of 2^32 from one that is still open. */
  predicate NeverReused(start: int, log: seq<Event>) {
    forall i :: 0 <= i < |log| && log[i].Call? ==>
      forall n :: n in Outstanding(start, log[..i]) ==> (Issued(log[..i]) + 1 - n) % CALL_IDS != 0
  }

  /** Each call is matched before all tanks together have issued 2^32 further ones. */
  predicate Timely(start: int, log: seq<Event>) {
    forall i :: 0 <= i < |log| && log[i].Call? ==>
      forall n :: n in Outstanding(start, log[..i]) ==> Issued(log[..i]) + 1 - n < CALL_IDS
  }

  lemma {:induction false} OpenWereIssued(start: int, log: seq<Event>)
    ensures forall n :: n in Outstanding(start, log) ==> 1 <= n <= Issued(log)
    decreases |log|
  {
    if log != [] {
      OpenWereIssued(start, log[..|log| - 1]);
    }
  }

  lemma TimelyIsEnough(start: int, log: seq<Event>)
    requires Timely(start, log)
    ensures NeverReused(start, log)
  {
    forall i, n | 0 <= i < |log| && log[i].Call? && n in Outstanding(start, log[..i])
      ensures (Issued(log[..i]) + 1 - n) % CALL_IDS != 0
    {
      OpenWereIssued(start, log[..i]);
    }
  }

  /** The table holds exactly the open calls under their ids, which are all different. */
  predicate TableIs(start: int, count: nat, open: map<nat, string>, s: Tank) {
    && s.callId == IdOf(start, count)
    && (forall n :: n in open ==>
          1 <= n <= count && IdOf(start, n) in s.callMap && s.callMap[IdOf(start, n)] == open[n])
    && (forall id :: id in s.callMap ==> exists n :: n in open && IdOf(start, n) == id)
    && (forall m, n :: m in open && n in open && m != n ==> IdOf(start, m) != IdOf(start, n))
  }

  /** The next call overwrites an entry iff its number is a multiple of 2^32 away from an open one. */
  lemma OverwritesIff(start: int, count: nat, open: map<nat, string>, s: Tank)
    requires IsInt(start) && TableIs(start, count, open, s)
    ensures NextId(s.callId) == IdOf(start, count + 1)
    ensures NextId(s.callId) in s.callMap <==> exists n :: n in open && (count + 1 - n) % CALL_IDS == 0
  {
    forall n | n in open ensures IdOf(start, n) == NextId(s.callId) <==> (count + 1 - n) % CALL_IDS == 0 {
      SameIdIff(start, n, count + 1);
    }
    if n :| n in open && (count + 1 - n) % CALL_IDS == 0 {
      assert IdOf(start, n) in s.callMap;
    }
  }

  lemma NextIdIsFree(start: int, count: nat, open: map<nat, string>, s: Tank)
    requires IsInt(start) && TableIs(start, count, open, s)
    requires forall n :: n in open ==> (count + 1 - n) % CALL_IDS != 0
    ensures forall n :: n in open ==> IdOf(start, n) != IdOf(start, count + 1)
    ensures NextId(s.callId) == IdOf(start, count + 1) && NextId(s.callId) !in s.callMap
  {
    OverwritesIff(start, count, open, s);
    forall n | n in open ensures IdOf(start, n) != IdOf(start, count + 1) {
      SameIdIff(start, n, count + 1);
    }
  }

  lemma CallKeepsTable(start: int, count: nat, open: map<nat, string>, s: Tank, res: string)
    requires IsInt(start) && TableIs(start, count, open, s)
    requires forall n :: n in open ==> (count + 1 - n) % CALL_IDS != 0
    ensures TableIs(start, count + 1, open[count + 1 := res], Issue(s, true, res))
  {
    NextIdIsFree(start, count, open, s);
    var t := Issue(s, true, res);
    forall i | i in t.callMap ensures exists n :: n in open[count + 1 := res] && IdOf(start, n) == i {
      if i == IdOf(start, count + 1) {
        assert count + 1 in open[count + 1 := res];
      } else {
        var n :| n in open && IdOf(start, n) == i;
        assert n in open[count + 1 := res];
      }
    }
  }

  lemma ElsewhereKeepsTable(start: int, count: nat, open: map<nat, string>, s: Tank)
    requires TableIs(start, count, open, s)
    ensures TableIs(start, count + 1, open, s.(callId := NextId(s.callId)))
  {
  }

  /** A result closes the calls with its id, whatever it says. */
  lemma ResultKeepsTable(start: int, count: nat, open: map<nat, string>, s: Tank, id: int, result: string,
                         rest: map<nat, string>, t: Tank)
    requires TableIs(start, count, open, s) && t == CheckCall(s, Result(id, result)).0
    requires forall n :: n in rest <==> n in open && IdOf(start, n) != id
    requires forall n :: n in rest ==> rest[n] == open[n]
    ensures TableIs(start, count, rest, t)
  {
    assert t.callId == s.callId && t.callMap == s.callMap - {id};
    forall i | i in t.callMap ensures exists n :: n in rest && IdOf(start, n) == i {
      var n :| n in open && IdOf(start, n) == i;
      assert n in rest;
    }
  }

  lemma StepKeepsTable(start: int, before: seq<Event>, t: Tank, e: Event)
    requires IsInt(start) && TableIs(start, Issued(before), Outstanding(start, before), t)
    requires e.Call? ==> forall n :: n in Outstanding(start, before) ==> (Issued(before) + 1 - n) % CALL_IDS != 0
    ensures TableIs(start, Issued(before + [e]), Outstanding(start, before + [e]), Step(t, e))
  {
    assert (before + [e])[..|before|] == before;
    var count, open := Issued(before), Outstanding(start, before);
    match e
    case Call(res) => CallKeepsTable(start, count, open, t, res);
    case Elsewhere => ElsewhereKeepsTable(start, count, open, t);
    case Answer(Result(id, result)) =>
      ResultKeepsTable(start, count, open, t, id, result, Outstanding(start, before + [e]), Step(t, e));
    case Answer(_) =>
  }

  /** For every interleaving of calls and responses, whatever ids other tanks take in between, in
      which no open call's id comes up again: the table is exactly the calls issued minus the calls
      matched. */
  lemma {:induction false} TableIsOutstanding(s: Tank, log: seq<Event>)
    requires IsInt(s.callId) && s.callMap == map[] && NeverReused(s.callId, log)
    ensures TableIs(s.callId, Issued(log), Outstanding(s.callId, log), Play(s, log))
    decreases |log|
  {
    if log != [] {
      var last := |log| - 1;
      var before := log[..last];
      forall i | 0 <= i < last ensures before[..i] == log[..i] {}
      TableIsOutstanding(s, before);
      assert log == before + [log[last]];
      StepKeepsTable(s.callId, before, Play(s, before), log[last]);
    }
  }

  /** The response carries the id of an outstanding call and the result expected for it. */
  predicate IsCorrect(start: int, log: seq<Event>, r: Response) {
    r.Result? && exists n :: n in Outstanding(start, log) && IdOf(start, n) == r.id && Outstanding(start, log)[n] == r.result
  }

  /** A response passes iff it answers an outstanding call with the result expected for it. */
  lemma PassesIff(s: Tank, log: seq<Event>, r: Response)
    requires IsInt(s.callId) && s.callMap == map[] && NeverReused(s.callId, log)
    ensures CheckCall(Play(s, log), r).1 <==> IsCorrect(s.callId, log, r)
  {
    TableIsOutstanding(s, log);
    var t := Play(s, log);
    if r.Result? && r.id in t.callMap {
      var n :| n in Outstanding(s.callId, log) && IdOf(s.callId, n) == r.id;
      assert Outstanding(s.callId, log)[n] == t.callMap[r.id];
    }
  }

  /** Without the bound an entry is overwritten: the id of call n comes back with call n + 2^32. */
  lemma IdsComeBack(start: int, n: nat)
    requires IsInt(start)
    ensures IdOf(start, n) == IdOf(start, n + CALL_IDS)
  {
    SameIdIff(start, n, n + CALL_IDS);
    MultipleDivides(CALL_IDS, 1);
  }

  // ----- All answers correct, in any order

  /** The correct answers to the open calls of these numbers, in this order. */
  function Answers(start: int, open: map<nat, string>, order: seq<nat>): seq<Response>
    requires forall n :: n in order ==> n in open
  {
    seq(|order|, i requires 0 <= i < |order| => Result(IdOf(start, order[i]), open[order[i]]))
  }

  /** All responses pass one after the other. */
  predicate AllPass(s: Tank, answers: seq<Response>)
    decreases |answers|
  {
    answers == [] || (CheckCall(s, answers[0]).1 && AllPass(CheckCall(s, answers[0]).0, answers[1..]))
  }

  function AfterAll(s: Tank, answers: seq<Response>): Tank
    decreases |answers|
  {
    if answers == [] then s else AfterAll(CheckCall(s, answers[0]).0, answers[1..])
  }

  /** The correct answer to an open call passes and closes that call alone. */
  lemma OnePasses(start: int, count: nat, open: map<nat, string>, s: Tank, n: nat, t: Tank)
    requires TableIs(start, count, open, s) && n in open
    requires t == CheckCall(s, Result(IdOf(start, n), open[n])).0
    ensures CheckCall(s, Result(IdOf(start, n), open[n])).1 && TableIs(start, count, open - {n}, t)
  {
    ResultKeepsTable(start, count, open, s, IdOf(start, n), open[n], open - {n}, t);
  }

  lemma NothingOpen(start: int, count: nat, open: map<nat, string>, s: Tank)
    requires TableIs(start, count, open, s) && open == map[]
    ensures s.callMap == map[]
  {
    assert forall id :: id !in s.callMap;
  }

  lemma FirstAndRest(order: seq<nat>, open: map<nat, string>)
    requires order != [] && NoDup(order) && forall n :: n in order <==> n in open
    ensures order[0] in open && NoDup(order[1..])
    ensures forall n :: n in order[1..] <==> n in open - {order[0]}
  {
    assert order == [order[0]] + order[1..];
    NoDupConcat([order[0]], order[1..]);
  }

  lemma AnswersUnfold(start: int, open: map<nat, string>, order: seq<nat>)
    requires order != [] && (forall n :: n in order <==> n in open)
    requires forall n :: n in order[1..] <==> n in open - {order[0]}
    ensures Answers(start, open, order) ==
      [Result(IdOf(start, order[0]), open[order[0]])] + Answers(start, open - {order[0]}, order[1..])
  {
    assert forall i :: 1 <= i < |order| ==> order[i] == order[1..][i - 1];
  }

  lemma PassUnfold(s: Tank, r: Response, rest: seq<Response>)
    ensures AllPass(s, [r] + rest) <==> CheckCall(s, r).1 && AllPass(CheckCall(s, r).0, rest)
    ensures AfterAll(s, [r] + rest) == AfterAll(CheckCall(s, r).0, rest)
  {
    assert ([r] + rest)[1..] == rest;
  }

  lemma {:induction false} OpenCallsPass(start: int, count: nat, open: map<nat, string>, s: Tank, order: seq<nat>)
    requires TableIs(start, count, open, s) && NoDup(order) && forall n :: n in order <==> n in open
    ensures AllPass(s, Answers(start, open, order)) && AfterAll(s, Answers(start, open, order)).callMap == map[]
    decreases |order|
  {
    if order == [] {
      assert forall n :: n !in open;
      NothingOpen(start, count, open, s);
    } else {
      var n, rest := order[0], order[1..];
      FirstAndRest(order, open);
      var t := CheckCall(s, Result(IdOf(start, n), open[n])).0;
      OnePasses(start, count, open, s, n, t);
      AnswersUnfold(start, open, order);
      OpenCallsPass(start, count, open - {n}, t, rest);
      PassUnfold(s, Result(IdOf(start, n), open[n]), Answers(start, open - {n}, rest));
    }
  }

  /** At any moment of such a run: the correct answers to all open calls pass in any order, and
      leave the table empty. */
  lemma AnyOrderPasses(s: Tank, log: seq<Event>, order: seq<nat>)
    requires IsInt(s.callId) && s.callMap == map[] && NeverReused(s.callId, log)
    requires NoDup(order) && forall n :: n in order <==> n in Outstanding(s.callId, log)
    ensures var t := Play(s, log); var answers := Answers(s.callId, Outstanding(s.callId, log), order);
      AllPass(t, answers) && AfterAll(t, answers).callMap == map[]
  {
    TableIsOutstanding(s, log);
    OpenCallsPass(s.callId, Issued(log), Outstanding(s.callId, log), Play(s, log), order);
  }
}
