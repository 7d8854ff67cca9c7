/** The counters of a tank that sends one and the same template again and again. */
module TankCounters {
  import opened Prelude
  import opened CounterSpec
  import opened CounterTheorems
  import opened TankSpec

  /** The counters the template declares, going through it once. */
  function DeclareAll(counters: map<string, Counter>, vars: seq<VarRef>): map<string, Counter> {
    if vars == [] then counters else
      var last := |vars| - 1;
      var before := DeclareAll(counters, vars[..last]);
      if IsCount(vars[last]) then Declare(before, vars[last]) else before
  }

  /** The replacements for a template whose counters are all there. */
  function Rendered(counters: map<string, Counter>, vars: seq<VarRef>, callId: int): seq<Replacement> {
    if vars == [] then [] else
      var last := |vars| - 1;
      var v := vars[last];
      Rendered(counters, vars[..last], callId) +
        (if IsId(v) then [Replacement("TANK", "ID", callId)]
         else if IsCount(v) && v.name in counters then [Replacement("TANK", v.name, counters[v.name].current)]
         else [])
  }

  ghost predicate CountsName(vars: seq<VarRef>, name: string) {
    exists i :: 0 <= i < |vars| && IsCount(vars[i]) && vars[i].name == name
  }

  /** A template declares a counter, standing at its start, for each of its COUNT names. */
  lemma {:induction false} DeclaresEveryName(vars: seq<VarRef>, name: string)
    ensures name in DeclareAll(map[], vars) <==> CountsName(vars, name)
    ensures name in DeclareAll(map[], vars) ==>
      var c := DeclareAll(map[], vars)[name]; c.current == c.from && IsMachine(c)
    decreases |vars|
  {
    if vars != [] {
      var last := |vars| - 1;
      DeclaresEveryName(vars[..last], name);
      if CountsName(vars[..last], name) {
        var i :| 0 <= i < last && IsCount(vars[..last][i]) && vars[..last][i].name == name;
        assert vars[i].name == name;
      }
      if CountsName(vars, name) {
        var i :| 0 <= i < |vars| && IsCount(vars[i]) && vars[i].name == name;
        assert i < last ==> vars[..last][i].name == name;
      }
    }
  }

  /** The first request declares the counters and meets no fatal branch. */
  lemma {:induction false} FirstPass(counters: map<string, Counter>, vars: seq<VarRef>, callId: int)
    ensures var m := Substitute(counters, vars, true, callId);
      m.counters == DeclareAll(counters, vars) && !m.fatal
    decreases |vars|
  {
    if vars != [] {
      FirstPass(counters, vars[..|vars| - 1], callId);
    }
  }

  /** The options the template gives last for a name. */
  function OptionsOf(vars: seq<VarRef>, name: string): Option<CountOptions> {
    if vars == [] then None else
      var v := vars[|vars| - 1];
      if IsCount(v) && v.name == name && v.options.Some? then v.options
      else OptionsOf(vars[..|vars| - 1], name)
  }

  function Given(option: Option<Long>, otherwise: int): int {
    match option
    case Some(x) => x as int
    case None => otherwise
  }

  /** A name is declared with the options given last for it, each with its own default, or as the
      counter from 0 to the largest long by 1 if none are given anywhere. */
  lemma {:induction false} DeclaredWith(vars: seq<VarRef>, name: string)
    ensures OptionsOf(vars, name).Some? ==> name in DeclareAll(map[], vars)
    ensures name in DeclareAll(map[], vars) ==>
      DeclareAll(map[], vars)[name] == match OptionsOf(vars, name)
        case Some(o) => Counter(Given(o.from, 1), Given(o.from, 1), Given(o.to, 100), Given(o.step, 1))
        case None => Counter(0, 0, 0x7fff_ffff_ffff_ffff, 1)
    decreases |vars|
  {
    if vars != [] {
      DeclaredWith(vars[..|vars| - 1], name);
    }
  }

  /** Where the template lets a counter start. */
  function StartOf(vars: seq<VarRef>, name: string): int {
    match OptionsOf(vars, name)
    case Some(o) => Given(o.from, 1)
    case None => 0
  }

  lemma DeclaredAtStart(vars: seq<VarRef>, name: string)
    ensures name in DeclareAll(map[], vars) ==> DeclareAll(map[], vars)[name].current == StartOf(vars, name)
  {
    DeclaredWith(vars, name);
  }

  /** The value listed for the i-th variable is the value it has in d. */
  predicate ListedAt(d: map<string, Counter>, vars: seq<VarRef>, i: nat)
    requires i < |vars|
  {
    IsCount(vars[i]) ==> vars[i].name in d && d[vars[i].name].current == StartOf(vars[..i + 1], vars[i].name)
  }

  /** The first request replaces each COUNT variable by the start known at that point. */
  lemma {:induction false} FirstReplaces(d: map<string, Counter>, vars: seq<VarRef>, callId: int)
    requires forall i :: 0 <= i < |vars| && IsCount(vars[i]) ==> vars[i].name in d
    ensures var r := Substitute(map[], vars, true, callId).replaced;
      && |r| == |Rendered(d, vars, callId)|
      && (r == Rendered(d, vars, callId) <==> forall i :: 0 <= i < |vars| ==> ListedAt(d, vars, i))
    decreases |vars|
  {
    if vars != [] {
      var last := |vars| - 1;
      var v, before := vars[last], vars[..last];
      assert forall i :: 0 <= i < last ==> before[i] == vars[i] && before[..i + 1] == vars[..i + 1];
      FirstReplaces(d, before, callId);
      assert (forall i :: 0 <= i < |vars| ==> ListedAt(d, vars, i)) <==>
        (forall i :: 0 <= i < last ==> ListedAt(d, before, i)) && ListedAt(d, vars, last) by {
        assert forall i :: 0 <= i < last ==> (ListedAt(d, vars, i) <==> ListedAt(d, before, i));
      }
      FirstPass(map[], before, callId);
      assert vars[..last + 1] == vars;
      DeclaredAtStart(vars, v.name);
      var r, s := Substitute(map[], before, true, callId).replaced, Rendered(d, before, callId);
      if IsCount(v) {
        EqualSnoc(r, s, Replacement("TANK", v.name, StartOf(vars, v.name)), Replacement("TANK", v.name, d[v.name].current));
      } else if IsId(v) {
        EqualSnoc(r, s, Replacement("TANK", "ID", callId), Replacement("TANK", "ID", callId));
      }
    }
  }

  lemma EqualSnoc<T>(r: seq<T>, s: seq<T>, x: T, y: T)
    requires |r| == |s|
    ensures r + [x] == s + [y] <==> r == s && x == y
  {
    if r + [x] == s + [y] {
      assert r == (r + [x])[..|r|] && s == (s + [y])[..|s|];
      assert x == (r + [x])[|r|] && y == (s + [y])[|s|];
    }
  }

  /** No variable gives a counter another start than the variables before it. */
  predicate SettledStarts(vars: seq<VarRef>) {
    forall i :: 0 <= i < |vars| && IsCount(vars[i]) ==>
      StartOf(vars[..i + 1], vars[i].name) == StartOf(vars, vars[i].name)
  }

  lemma FirstSubstitutionIff(vars: seq<VarRef>, callId: int)
    ensures Substitute(map[], vars, true, callId).replaced == Rendered(DeclareAll(map[], vars), vars, callId)
            <==> SettledStarts(vars)
  {
    var d := DeclareAll(map[], vars);
    forall i | 0 <= i < |vars| && IsCount(vars[i])
      ensures vars[i].name in d && d[vars[i].name].current == StartOf(vars, vars[i].name)
    {
      DeclaresEveryName(vars, vars[i].name);
      DeclaredAtStart(vars, vars[i].name);
    }
    FirstReplaces(d, vars, callId);
    if SettledStarts(vars) {
      forall i | 0 <= i < |vars| ensures ListedAt(d, vars, i) {}
    } else {
      var i :| 0 <= i < |vars| && IsCount(vars[i])
        && StartOf(vars[..i + 1], vars[i].name) != StartOf(vars, vars[i].name);
      assert !ListedAt(d, vars, i);
    }
  }

  /** A counter mentioned before its start is given: the first request lists 0, then the start. */
  lemma StartGivenLate()
    ensures var vars := [VarRef("TANK", "COUNT", None), VarRef("TANK", "COUNT", Some(CountOptions(Some(5), None, None)))];
      Substitute(map[], vars, true, 1).replaced == [Replacement("TANK", "COUNT", 0), Replacement("TANK", "COUNT", 5)]
  {
    var v, w := VarRef("TANK", "COUNT", None), VarRef("TANK", "COUNT", Some(CountOptions(Some(5), None, None)));
    assert [v, w][..1] == [v] && [v][..0] == [];
    assert IsCount(v) && IsCount(w);
    var m := SubstituteOne(Made(map[], [], false), v, true, 1);
    assert Substitute(map[], [v], true, 1) == m;
  }

  predicate WithoutCounter(counters: map<string, Counter>, vars: seq<VarRef>, i: int) {
    0 <= i < |vars| && IsCount(vars[i]) && vars[i].name !in counters
  }

  ghost predicate LacksCounter(counters: map<string, Counter>, vars: seq<VarRef>) {
    exists i :: WithoutCounter(counters, vars, i)
  }

  lemma LacksCounterSnoc(counters: map<string, Counter>, before: seq<VarRef>, v: VarRef)
    ensures LacksCounter(counters, before + [v]) <==>
      (IsCount(v) && v.name !in counters) || LacksCounter(counters, before)
  {
    var vars, n := before + [v], |before|;
    assert vars[n] == v;
    if i :| WithoutCounter(counters, vars, i) {
      assert i < n ==> WithoutCounter(counters, before, i);
    }
    if i :| WithoutCounter(counters, before, i) {
      assert WithoutCounter(counters, vars, i);
    }
    if IsCount(v) && v.name !in counters {
      assert WithoutCounter(counters, vars, n);
    }
  }

  /** Later requests only read; they are fatal iff some COUNT name has no counter. */
  lemma {:induction false} LaterPass(counters: map<string, Counter>, vars: seq<VarRef>, callId: int)
    ensures var m := Substitute(counters, vars, false, callId);
      && m.counters == counters
      && m.replaced == Rendered(counters, vars, callId)
      && (m.fatal <==> LacksCounter(counters, vars))
    decreases |vars|
  {
    if vars != [] {
      LaterPass(counters, vars[..|vars| - 1], callId);
      LacksCounterSnoc(counters, vars[..|vars| - 1], vars[|vars| - 1]);
      assert vars == vars[..|vars| - 1] + [vars[|vars| - 1]];
    }
  }

  /** A request that finds the ids used up to `found`, by whichever tanks. */
  datatype Request = Request(found: int, res: string)

  function Make(s: Tank, opt: Options, vars: seq<VarRef>, r: Request): (Tank, TankSpec.Made) {
    MakeRequest(s.(callId := r.found), opt, vars, r.res)
  }

  /** The tank after these requests with this template. */
  function After(s: Tank, opt: Options, vars: seq<VarRef>, requests: seq<Request>): Tank {
    if requests == [] then s else
      var last := |requests| - 1;
      Make(After(s, opt, vars, requests[..last]), opt, vars, requests[last]).0
  }

  /** All counters after k steps. */
  function Advanced(d: map<string, Counter>, k: nat): map<string, Counter> {
    map name | name in d :: Nth(d[name], k)
  }

  lemma AdvanceMore(d: map<string, Counter>, k: nat)
    ensures Advanced(d, 0) == d && AdvanceAll(Advanced(d, k)) == Advanced(d, k + 1)
  {
  }

  lemma {:induction false} CountersAfter(s: Tank, opt: Options, vars: seq<VarRef>, requests: seq<Request>)
    requires opt.enableVars && s.initialMake && s.counters == map[] && requests != []
    ensures var t := After(s, opt, vars, requests);
      !t.initialMake && t.counters == Advanced(DeclareAll(map[], vars), |requests| - 1)
    decreases |requests|
  {
    var last := |requests| - 1;
    var d := DeclareAll(map[], vars);
    if last > 0 {
      CountersAfter(s, opt, vars, requests[..last]);
      var found := After(s, opt, vars, requests[..last]).(callId := requests[last].found);
      var t := Issue(found, opt.jsonrpc, requests[last].res);
      AdvanceMore(d, last - 1);
      LaterPass(AdvanceAll(t.counters), vars, t.callId);
    } else {
      assert requests[..last] == [];
      AdvanceMore(d, 0);
      FirstPass(map[], vars, Issue(s.(callId := requests[last].found), opt.jsonrpc, requests[last].res).callId);
    }
  }

  /** The first request is never fatal, and lists every counter at its value before the first step
      iff the template settles each start where it first mentions the counter. */
  lemma FirstRequestIff(s: Tank, opt: Options, vars: seq<VarRef>, res: string)
    requires opt.enableVars && s.initialMake && s.counters == map[]
    ensures var made := MakeRequest(s, opt, vars, res);
      && !made.1.fatal
      && (made.1.replaced == Rendered(Advanced(DeclareAll(map[], vars), 0), vars, made.0.callId)
          <==> SettledStarts(vars))
  {
    var callId := Issue(s, opt.jsonrpc, res).callId;
    AdvanceMore(DeclareAll(map[], vars), 0);
    FirstPass(map[], vars, callId);
    FirstSubstitutionIff(vars, callId);
  }

  /** From the second request on, request k replaces every COUNT variable by its counter's value
      after k - 1 steps, all counters in lockstep, and no request is fatal. */
  lemma Lockstep(s: Tank, opt: Options, vars: seq<VarRef>, requests: seq<Request>, r: Request)
    requires opt.enableVars && s.initialMake && s.counters == map[] && requests != []
    ensures var made := Make(After(s, opt, vars, requests), opt, vars, r);
      && !made.1.fatal
      && made.1.replaced == Rendered(Advanced(DeclareAll(map[], vars), |requests|), vars, made.0.callId)
  {
    CountersAfter(s, opt, vars, requests);
    var d := DeclareAll(map[], vars);
    AdvanceMore(d, |requests| - 1);
    var found := After(s, opt, vars, requests).(callId := r.found);
    LaterPass(Advanced(d, |requests|), vars, Issue(found, opt.jsonrpc, r.res).callId);
    forall i | 0 <= i < |vars| && IsCount(vars[i]) ensures vars[i].name in Advanced(d, |requests|) {
      DeclaresEveryName(vars, vars[i].name);
    }
  }

  /** The value of a well configured COUNT variable after k steps, from the options of the template. */
  lemma LockstepValue(vars: seq<VarRef>, name: string, k: nat)
    requires CountsName(vars, name)
    ensures name in Advanced(DeclareAll(map[], vars), k)
    ensures OptionsOf(vars, name).Some? ==>
      var o := OptionsOf(vars, name).value;
      var from, to, step := Given(o.from, 1), Given(o.to, 100), Given(o.step, 1);
      from < to && 0 < step <= to - from ==>
        Advanced(DeclareAll(map[], vars), k)[name].current == from + (k * step) % (to - from)
    ensures OptionsOf(vars, name).None? ==>
      Advanced(DeclareAll(map[], vars), k)[name].current == k % 0x7fff_ffff_ffff_ffff
  {
    DeclaresEveryName(vars, name);
    DeclaredWith(vars, name);
    var c := DeclareAll(map[], vars)[name];
    if Cyclic(c) {
      ClosedForm(c, k);
      assert k * c.step == if c.step == 1 then k else k * c.step;
    }
  }

  /** Switching the variables on after the first request makes any COUNT variable fatal. */
  lemma VariablesSwitchedOnLate(s: Tank, off: Options, on: Options, vars: seq<VarRef>, res: string, name: string)
    requires !off.enableVars && on.enableVars && s.initialMake && s.counters == map[] && CountsName(vars, name)
    ensures MakeRequest(MakeRequest(s, off, vars, res).0, on, vars, res).1.fatal
  {
    var t := MakeRequest(s, off, vars, res).0;
    LaterPass(AdvanceAll(t.counters), vars, Issue(t, on.jsonrpc, res).callId);
    var i :| 0 <= i < |vars| && IsCount(vars[i]) && vars[i].name == name;
    assert WithoutCounter(AdvanceAll(t.counters), vars, i);
  }
}
