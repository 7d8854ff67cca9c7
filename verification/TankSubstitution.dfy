/** What a request replaces in its template. */
module TankSubstitution {
  import opened Prelude
  import opened CounterSpec
  import opened TankSpec
  import opened TankCounters

  /** TANK:ID and every TANK variable whose name begins with COUNT. */
  predicate IsReplaced(v: VarRef) {
    v.prefix == "TANK" && (v.name == "ID" || "COUNT" <= v.name)
  }

  function Mentioned(vars: seq<VarRef>): seq<string> {
    if vars == [] then [] else
      var v := vars[|vars| - 1];
      Mentioned(vars[..|vars| - 1]) + (if IsReplaced(v) then [v.name] else [])
  }

  function Names(replaced: seq<Replacement>): seq<string> {
    Mapped(replaced, (r: Replacement) => r.name)
  }

  /** The list is for these names, all of prefix TANK, and every ID in it is `callId`. */
  predicate ListsNames(replaced: seq<Replacement>, names: seq<string>, callId: int) {
    && Names(replaced) == names
    && forall i :: 0 <= i < |replaced| ==>
         replaced[i].prefix == "TANK" && (replaced[i].name == "ID" ==> replaced[i].value == callId)
  }

  /** All COUNT names have a counter. */
  predicate Counted(counters: map<string, Counter>, vars: seq<VarRef>) {
    forall i :: 0 <= i < |vars| && vars[i].prefix == "TANK" && "COUNT" <= vars[i].name ==> vars[i].name in counters
  }

  lemma OneListed(m: Made, v: VarRef, initial: bool, callId: int, names: seq<string>)
    requires ListsNames(m.replaced, names, callId)
    requires initial || !(v.prefix == "TANK" && "COUNT" <= v.name) || v.name in m.counters
    ensures ListsNames(SubstituteOne(m, v, initial, callId).replaced,
                       names + (if IsReplaced(v) then [v.name] else []), callId)
  {
    assert names + [] == names;
    assert "COUNT" <= v.name ==> v.name[..5] == "COUNT" && v.name != "ID";
    assert |v.name| >= 5 && v.name[..5] == "COUNT" ==> "COUNT" <= v.name;
  }

  /** A pass over the template lists exactly its TANK:ID and TANK:COUNT variables, in their order. */
  lemma {:induction false} ListsMentioned(counters: map<string, Counter>, vars: seq<VarRef>, initial: bool, callId: int)
    requires initial || Counted(counters, vars)
    ensures ListsNames(Substitute(counters, vars, initial, callId).replaced, Mentioned(vars), callId)
    decreases |vars|
  {
    if vars != [] {
      var before, v := vars[..|vars| - 1], vars[|vars| - 1];
      assert forall i :: 0 <= i < |before| ==> before[i] == vars[i];
      ListsMentioned(counters, before, initial, callId);
      if !initial { LaterPass(counters, before, callId); }
      OneListed(Substitute(counters, before, initial, callId), v, initial, callId, Mentioned(before));
    }
  }

  lemma DeclaresCounted(vars: seq<VarRef>, k: nat)
    ensures Counted(Advanced(DeclareAll(map[], vars), k), vars)
  {
    forall i | 0 <= i < |vars| && vars[i].prefix == "TANK" && "COUNT" <= vars[i].name
      ensures vars[i].name in Advanced(DeclareAll(map[], vars), k)
    {
      assert IsCount(vars[i]);
      DeclaresEveryName(vars, vars[i].name);
    }
  }

  /** Every request with this template, the first and any later one, lists exactly its TANK:ID and
      TANK:COUNT variables in their order; as a call, it lists for each ID the id under which the
      table now holds the result it expects. */
  lemma RequestListsMentioned(s: Tank, opt: Options, vars: seq<VarRef>, requests: seq<Request>, r: Request)
    requires opt.enableVars && s.initialMake && s.counters == map[]
    ensures var made := Make(After(s, opt, vars, requests), opt, vars, r);
      && ListsNames(made.1.replaced, Mentioned(vars), made.0.callId)
      && (opt.jsonrpc ==> made.0.callId in made.0.callMap && made.0.callMap[made.0.callId] == r.res)
  {
    var t := After(s, opt, vars, requests);
    var callId := Issue(t.(callId := r.found), opt.jsonrpc, r.res).callId;
    if requests == [] {
      ListsMentioned(map[], vars, true, callId);
    } else {
      CountersAfter(s, opt, vars, requests);
      AdvanceMore(DeclareAll(map[], vars), |requests| - 1);
      DeclaresCounted(vars, |requests|);
      ListsMentioned(Advanced(DeclareAll(map[], vars), |requests|), vars, false, callId);
    }
  }

  /** Without enable_vars nothing is replaced and no counter moves, however many requests are made. */
  lemma {:induction false} WithoutVars(s: Tank, opt: Options, vars: seq<VarRef>, requests: seq<Request>)
    requires !opt.enableVars
    ensures After(s, opt, vars, requests).counters == s.counters
    ensures forall r :: Make(After(s, opt, vars, requests), opt, vars, r).1 == Made(s.counters, [], false)
    decreases |requests|
  {
    if requests != [] {
      WithoutVars(s, opt, vars, requests[..|requests| - 1]);
    }
  }
}
