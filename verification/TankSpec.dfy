/**
  tank_io as a value: the table of calls waiting for their response, the queue of expected raw
  responses, and the counters substituted into the request template.
*/
module TankSpec {
  import opened Prelude
  import opened CounterSpec

  /** `jsonrpc`: a method name is configured. */
  datatype Options = Options(enableVars: bool, checkResponse: bool, jsonrpc: bool)

  /** The options of a COUNT variable, as far as the template gives them. */
  datatype CountOptions = CountOptions(from: Option<Long>, to: Option<Long>, step: Option<Long>)

  /** A variable of the request template, in the order of its text. */
  datatype VarRef = VarRef(prefix: string, name: string, options: Option<CountOptions>)

  datatype Replacement = Replacement(prefix: string, name: string, value: int)

  datatype Tank = Tank(callId: int, callMap: map<int, string>, ioQueue: seq<string>,
                       counters: map<string, Counter>, initialMake: bool)

  const MAX_INT := 0x7fff_ffff
  const CALL_IDS := 0x1_0000_0000

  const DEFAULT_COUNTER := Counter(0, 0, MAX_LONG, 1)

  /** ++ on an int that wraps around */
  function NextId(id: int): int {
    if id == MAX_INT then -MAX_INT - 1 else id + 1
  }

  predicate IsCount(v: VarRef) {
    v.prefix == "TANK" && v.name != "ID" && |v.name| >= 5 && v.name[..5] == "COUNT"
  }

  predicate IsId(v: VarRef) {
    v.prefix == "TANK" && v.name == "ID"
  }

  /** vars::get_opt */
  function GetOpt(option: Option<Long>, otherwise: Long): Long {
    if option.Some? then option.value else otherwise
  }

  /** What the first request does to the counters when it meets v. */
  function Declare(counters: map<string, Counter>, v: VarRef): map<string, Counter> {
    if v.options.Some? then
      var o := v.options.value;
      counters[v.name := Counter(GetOpt(o.from, 1) as int, GetOpt(o.from, 1) as int,
                                 GetOpt(o.to, 100) as int, GetOpt(o.step, 1) as int)]
    else if v.name !in counters then counters[v.name := DEFAULT_COUNTER]
    else counters
  }

  function AdvanceAll(counters: map<string, Counter>): map<string, Counter> {
    map name | name in counters :: Next(counters[name])
  }

  /** `fatal`: a COUNT variable without a counter was met. */
  datatype Made = Made(counters: map<string, Counter>, replaced: seq<Replacement>, fatal: bool)

  function SubstituteOne(m: Made, v: VarRef, initial: bool, callId: int): Made {
    if IsId(v) then m.(replaced := m.replaced + [Replacement("TANK", "ID", callId)])
    else if IsCount(v) then
      var cs := if initial then Declare(m.counters, v) else m.counters;
      if v.name in cs
      then Made(cs, m.replaced + [Replacement("TANK", v.name, cs[v.name].current)], m.fatal)
      else Made(cs, m.replaced, true)
    else m
  }

  function Substitute(counters: map<string, Counter>, vars: seq<VarRef>, initial: bool, callId: int): Made {
    if vars == [] then Made(counters, [], false) else
      var last := |vars| - 1;
      SubstituteOne(Substitute(counters, vars[..last], initial, callId), vars[last], initial, callId)
  }

  function Issue(s: Tank, jsonrpc: bool, res: string): Tank {
    if jsonrpc then
      var id := NextId(s.callId);
      s.(callId := id, callMap := s.callMap[id := res])
    else s.(ioQueue := s.ioQueue + [res])
  }

  /** make_request_ */
  function MakeRequest(s: Tank, opt: Options, vars: seq<VarRef>, res: string): (Tank, Made) {
    var t := Issue(s, opt.jsonrpc, res);
    if opt.enableVars then
      var m := Substitute(if s.initialMake then t.counters else AdvanceAll(t.counters), vars, s.initialMake, t.callId);
      (t.(counters := m.counters, initialMake := false), m)
    else (t.(initialMake := false), Made(t.counters, [], false))
  }

  /** One message in the response buffer, as far as the parser and the two getters understand it. */
  datatype Response =
    | Result(id: int, result: string)
    | WithoutResult(id: int)     // a response whose result cannot be read
    | BadId
    | NotResponse
    | Broken                     // not parsed at all

  /** check_response_ of a JSON-RPC tank */
  function CheckCall(s: Tank, r: Response): (Tank, bool) {
    if r.Result? && r.id in s.callMap
    then (s.(callMap := s.callMap - {r.id}), s.callMap[r.id] == r.result)
    else (s, false)
  }

  /** check_response_ of a raw tank */
  function CheckRaw(s: Tank, r: string): (Tank, bool) {
    if s.ioQueue == [] then (s, true)
    else (s.(ioQueue := s.ioQueue[1..]), s.ioQueue[0] == r)
  }
}
