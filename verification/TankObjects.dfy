/** tank_io as an object. */
module TankObjects {
  import opened Prelude
  import opened CounterSpec
  import opened CounterObjects
  import opened TankSpec

  /** The static `_call_id`, which all tanks count with. */
  class CallIds {
    var last: int

    constructor ()
      ensures last == 0
    {
      last := 0;
    }

    method Take() returns (id: int)
      modifies this
      ensures id == last == NextId(old(last))
    {
      last := NextId(last);
      id := last;
    }
  }

  /** `model` is the state of this tank, up to the id counter it shares with the others. */
  class TankIo {
    const ids: CallIds
    var callMap: map<int, string>
    var ioQueue: seq<string>
    var counters: map<string, CounterObject>
    var initialMake: bool
    ghost var model: Tank

    ghost predicate CountersTied()
      reads this, counters.Values
    {
      && counters.Keys == model.counters.Keys
      && (forall n :: n in counters ==> counters[n].View() == model.counters[n])
      && (forall m, n :: m in counters && n in counters && m != n ==> counters[m] != counters[n])
    }

    ghost predicate Valid()
      reads this, counters.Values
    {
      && CountersTied()
      && model.callMap == callMap && model.ioQueue == ioQueue
      && model.initialMake == initialMake
    }

    /** The state, with whatever id was taken last by any tank. */
    ghost function State(): Tank
      reads this, ids
    {
      model.(callId := ids.last)
    }

    /** configure() has set `_initial_make`. */
    constructor (ids: CallIds)
      ensures Valid() && fresh(counters.Values) && this.ids == ids
      ensures State() == Tank(ids.last, map[], [], map[], true)
    {
      this.ids, callMap, ioQueue, counters, initialMake := ids, map[], [], map[], true;
      model := Tank(0, map[], [], map[], true);
    }

    method Enqueue(jsonrpc: bool, res: string)
      requires Valid()
      modifies this`callMap, this`ioQueue, this`model, ids
      ensures Valid() && State() == Issue(old(State()), jsonrpc, res)
      ensures model.counters == old(model).counters && model.initialMake == old(model).initialMake
    {
      if jsonrpc {
        var id := ids.Take();
        callMap := callMap[id := res];
      } else {
        ioQueue := ioQueue + [res];
      }
      model := model.(callMap := callMap, ioQueue := ioQueue);
    }

    /** One turn of the loop: the other counters, all different objects, keep their values. */
    method AdvanceOne(name: string)
      requires name in counters && NoOverflow(counters[name].View())
      requires forall m, n :: m in counters && n in counters && m != n ==> counters[m] != counters[n]
      modifies counters[name]
      ensures forall n :: n in counters ==>
        counters[n].View() == if n == name then CounterSpec.Next(old(counters[n].View())) else old(counters[n].View())
    {
      var _ := counters[name].Next();
    }

    /** The loop that advances every counter. */
    method AdvanceEach(ghost before: map<string, Counter>)
      requires counters.Keys == before.Keys
      requires forall n :: n in counters ==> counters[n].View() == before[n] && NoOverflow(before[n])
      requires forall m, n :: m in counters && n in counters && m != n ==> counters[m] != counters[n]
      modifies counters.Values
      ensures forall n :: n in counters ==> counters[n].View() == CounterSpec.Next(before[n])
    {
      var rest := counters.Keys;
      while rest != {}
        invariant rest <= counters.Keys
        invariant forall n :: n in counters ==>
          counters[n].View() == if n in rest then before[n] else CounterSpec.Next(before[n])
        decreases |rest|
      {
        var name :| name in rest;
        AdvanceOne(name);
        rest := rest - {name};
      }
    }

    method AdvanceCounters()
      requires CountersTied() && forall n :: n in model.counters ==> NoOverflow(model.counters[n])
      modifies this`model, counters.Values
      ensures CountersTied() && model == old(model).(counters := AdvanceAll(old(model).counters))
    {
      AdvanceEach(model.counters);
      model := model.(counters := AdvanceAll(model.counters));
    }

    /** What the first request does when it meets a COUNT variable. */
    method DeclareCounter(v: VarRef)
      requires CountersTied()
      modifies this`counters, this`model
      ensures CountersTied() && model == old(model).(counters := Declare(old(model).counters, v))
      ensures forall c :: c in counters.Values ==> c in old(counters).Values || fresh(c)
    {
      if v.options.Some? {
        var o := v.options.value;
        var c := new CounterObject(GetOpt(o.from, 1), GetOpt(o.from, 1), GetOpt(o.to, 100), GetOpt(o.step, 1));
        counters := counters[v.name := c];
      } else if v.name !in counters {
        var c := new CounterObject.Default();
        counters := counters[v.name := c];
      }
      model := model.(counters := Declare(model.counters, v));
    }

    /** The loop over the variables of the template. */
    method SubstituteAll(vars: seq<VarRef>) returns (replaced: seq<Replacement>, fatal: bool)
      requires CountersTied()
      modifies this`counters, this`model
      ensures CountersTied()
      ensures var m := Substitute(old(model).counters, vars, initialMake, ids.last);
        model == old(model).(counters := m.counters) && replaced == m.replaced && fatal == m.fatal
      ensures forall c :: c in counters.Values ==> c in old(counters).Values || fresh(c)
    {
      replaced, fatal := [], false;
      for i := 0 to |vars|
        invariant CountersTied()
        invariant Made(model.counters, replaced, fatal) == Substitute(old(model).counters, vars[..i], initialMake, ids.last)
        invariant model == old(model).(counters := model.counters)
        invariant forall c :: c in counters.Values ==> c in old(counters).Values || fresh(c)
      {
        assert vars[..i + 1][..i] == vars[..i];
        var v := vars[i];
        if v.prefix == "TANK" {
          if v.name == "ID" {
            replaced := replaced + [Replacement("TANK", "ID", ids.last)];
          } else if |v.name| >= 5 && v.name[..5] == "COUNT" {
            if initialMake {
              DeclareCounter(v);
            }
            if v.name in counters {
              replaced := replaced + [Replacement("TANK", v.name, counters[v.name].Get() as int)];
            } else {
              fatal := true;
            }
          }
        }
      }
      assert vars[..|vars|] == vars;
    }

    /** make_request_: returns the replacements made in the template. */
    method MakeRequest(opt: Options, vars: seq<VarRef>, res: string) returns (replaced: seq<Replacement>, fatal: bool)
      requires Valid()
      requires opt.enableVars && !initialMake ==> forall n :: n in model.counters ==> NoOverflow(model.counters[n])
      modifies this, ids, counters.Values
      ensures Valid()
      ensures var made := TankSpec.MakeRequest(old(State()), opt, vars, res);
        State() == made.0 && replaced == made.1.replaced && fatal == made.1.fatal
      ensures forall c :: c in counters.Values ==> c in old(counters).Values || fresh(c)
    {
      Enqueue(opt.jsonrpc, res);
      replaced, fatal := [], false;
      if opt.enableVars {
        if !initialMake {
          AdvanceCounters();
        }
        replaced, fatal := SubstituteAll(vars);
      }
      initialMake := false;
      model := model.(initialMake := false);
    }

    /** check_response_, for a buffer that holds the message `json`, or the raw text `raw`. */
    method CheckResponse(opt: Options, json: Response, raw: string) returns (ok: bool)
      requires Valid()
      modifies this`callMap, this`ioQueue, this`model
      ensures Valid()
      ensures !opt.checkResponse ==> ok && State() == old(State())
      ensures opt.checkResponse && opt.jsonrpc ==> (State(), ok) == CheckCall(old(State()), json)
      ensures opt.checkResponse && !opt.jsonrpc ==> (State(), ok) == CheckRaw(old(State()), raw)
    {
      ok := true;
      if opt.checkResponse {
        if opt.jsonrpc {
          ok := false;
          match json {
            case Result(id, result) =>
              if id in callMap {
                ok := callMap[id] == result;
                callMap := callMap - {id};
              }
            case _ =>
          }
        } else if ioQueue != [] {
          ok := ioQueue[0] == raw;
          ioQueue := ioQueue[1..];
        }
        model := model.(callMap := callMap, ioQueue := ioQueue);
      }
    }
  }
}
