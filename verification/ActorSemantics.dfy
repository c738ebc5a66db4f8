/** Running actor programs: an evaluator that notes, at each call, the type the
    static pass resolved there (src/actor_protocol.rs). Results of primitives,
    of asks and of pattern matching are left to the host. */
module ActorSemantics {
  import opened Options
  import opened ActorSyntax

  datatype Value = Actor(id: nat, ty: string) | Closure(at: nat) | Data(n: nat)

  type Vars = map<string, Value>

  /** A call as it happened, with what the static pass made of it. */
  datatype Event = Called(target: Value, behavior: string, nargs: nat, resolved: Option<string>)

  /** A closure with the variables it captured; a function of the module
      captures none and runs in the module's variables. */
  datatype Code = Code(params: seq<string>, body: Expr, vars: Option<Vars>, env: Env, self: Value)

  /** Variables, those of the module, closures, calls made so far, and a clock
      that tells the host's answers apart. */
  datatype State = State(vars: Vars, globals: Vars, heap: seq<Code>, trace: seq<Event>, clock: nat)

  /** One run of an arm: which arm, and the values its names are bound to. */
  datatype ArmRun = ArmRun(index: nat, values: seq<Value>, guardHolds: bool)

  datatype Host = Host(value: nat -> Value, runs: nat -> seq<ArmRun>)

  datatype Out = Out(v: Option<Value>, st: State)
  datatype Outs = Outs(vs: Option<seq<Value>>, st: State)

  function Tick(st: State): State { st.(clock := st.clock + 1) }

  function Ask(host: Host, st: State): Out { Out(Some(host.value(st.clock)), Tick(st)) }

  /** The variables on leaving a scope that owned `names`. */
  function Leave(outer: Vars, inner: Vars, names: set<string>): Vars {
    (map x | x in inner && x !in names :: inner[x]) + (map x | x in outer && x in names :: outer[x])
  }

  function Names(xs: seq<string>): set<string> { set x | x in xs }

  /** Names bound to values; names without a value are hidden. */
  function BindAll(vars: Vars, names: seq<string>, values: seq<Value>): Vars
    decreases |names|
  {
    if names == [] then vars
    else if values == [] then BindAll(vars - {names[0]}, names[1..], [])
    else BindAll(vars[names[0] := values[0]], names[1..], values[1..])
  }

  function Scope(c: Code, st: State): Vars { if c.vars.Some? then c.vars.value else st.globals }

  predicate Callable(f: Value, st: State) { f.Closure? && f.at < |st.heap| }

  // ----- evaluation -----

  /** A closure runs in its own variables; calling anything else, and
      any call beyond the fuel, is the host's. A missing value stops the run. */
  function Eval(e: Expr, env: Env, self: Value, fuel: nat, st: State, ps: Protocols, host: Host): Out
    decreases fuel, e, 0
  {
    match e
    case Lit(n) => Out(Some(Data(n)), st)
    case Var(x) => Out(if x in st.vars then Some(st.vars[x]) else None, st)
    case SelfRef => Out(Some(self), st)
    case Prim(_, kids) =>
      var k := EvalAll(kids, env, self, fuel, st, ps, host);
      if k.vs.None? then Out(None, k.st) else Ask(host, k.st)
    case Lambda(params, body) =>
      Out(Some(Closure(|st.heap|)), st.(heap := st.heap + [Code(params, body, Some(st.vars), env, self)]))
    case App(func, args) =>
      var f := Eval(func, env, self, fuel, st, ps, host);
      if f.v.None? then f
      else
        var a := EvalAll(args, env, self, fuel, f.st, ps, host);
        if a.vs.None? then Out(None, a.st)
        else if !Callable(f.v.value, a.st) || fuel == 0 then Ask(host, a.st)
        else
          var code := a.st.heap[f.v.value.at];
          var b := Eval(code.body, Shadow(code.env, code.params), code.self, fuel - 1,
                        a.st.(vars := BindAll(Scope(code, a.st), code.params, a.vs.value)), ps, host);
          Out(b.v, b.st.(vars := a.st.vars))
    case Let(name, value, body) =>
      var v := Eval(value, env, self, fuel, st, ps, host);
      if v.v.None? then v
      else
        var b := Eval(body, Bind(env, name, ActorName(value, env), ps), self, fuel, v.st.(vars := v.st.vars[name := v.v.value]), ps, host);
        Out(b.v, b.st.(vars := Leave(v.st.vars, b.st.vars, {name})))
    case LetRec(name, params, value, body) =>
      var inner, at := Shadow(env, [name] + params), |st.heap|;
      var vars := st.vars[name := Closure(at)];
      var b := Eval(body, inner, self, fuel, st.(vars := vars, heap := st.heap + [Code(params, value, Some(vars), inner, self)]), ps, host);
      Out(b.v, b.st.(vars := Leave(st.vars, b.st.vars, {name})))
    case Branches(heads, arms) =>
      var h := EvalAll(heads, env, self, fuel, st, ps, host);
      if h.vs.None? then Out(None, h.st)
      else EvalRuns(host.runs(h.st.clock), arms, env, self, fuel, Tick(h.st), ps, host)
    case Hide(names, body) =>
      var b := Eval(body, Shadow(env, names), self, fuel, st.(vars := st.vars - Names(names)), ps, host);
      Out(b.v, b.st.(vars := Leave(st.vars, b.st.vars, Names(names))))
    case Seal(names, body) =>
      var hidden := st.vars.Keys - Names(names);
      var b := Eval(body, Keep(env, names), self, fuel, st.(vars := st.vars - hidden), ps, host);
      Out(b.v, b.st.(vars := Leave(st.vars, b.st.vars, hidden)))
    case Assign(target, value) =>
      if target.Var? then
        var v := Eval(value, env, self, fuel, st, ps, host);
        if v.v.None? || target.name !in v.st.vars then Out(None, v.st)
        else Out(Some(Data(0)), v.st.(vars := v.st.vars[target.name := v.v.value]))
      else
        var t := Eval(target, env, self, fuel, st, ps, host);
        if t.v.None? then t else Eval(value, env, self, fuel, t.st, ps, host)
    case Spawn(actorType, args) =>
      if actorType.Var? then
        var a := EvalAll(args, env, self, fuel, st, ps, host);
        if a.vs.None? then Out(None, a.st) else Out(Some(Actor(a.st.clock, actorType.name)), Tick(a.st))
      else
        var t := Eval(actorType, env, self, fuel, st, ps, host);
        if t.v.None? then t
        else
          var a := EvalAll(args, env, self, fuel, t.st, ps, host);
          if a.vs.None? then Out(None, a.st) else Ask(host, a.st)
    case Grain(grain, key) =>
      var k := Eval(key, env, self, fuel, st, ps, host);
      if k.v.None? then k else Out(Some(Actor(k.st.clock, grain)), Tick(k.st))
    case TypeAnnotate(inner, _) => Eval(inner, env, self, fuel, st, ps, host)
    case CapAnnotate(inner) => Eval(inner, env, self, fuel, st, ps, host)
    case Call(_, actor, behavior, args) =>
      var t := Eval(actor, env, self, fuel, st, ps, host);
      if t.v.None? then t
      else
        var a := EvalAll(args, env, self, fuel, t.st, ps, host);
        if a.vs.None? then Out(None, a.st)
        else
          var event := Called(t.v.value, behavior, |a.vs.value|, Resolve(actor, env, ps));
          Ask(host, a.st.(trace := a.st.trace + [event]))
  }

  function EvalAll(es: Exprs, env: Env, self: Value, fuel: nat, st: State, ps: Protocols, host: Host): (r: Outs)
    ensures r.vs.Some? ==> |r.vs.value| == Length(es)
    decreases fuel, es, 0
  {
    if es.Nil? then Outs(Some([]), st)
    else
      var h := Eval(es.head, env, self, fuel, st, ps, host);
      if h.v.None? then Outs(None, h.st)
      else
        var t := EvalAll(es.tail, env, self, fuel, h.st, ps, host);
        Outs(if t.vs.Some? then Some([h.v.value] + t.vs.value) else None, t.st)
  }

  function EvalArm(run: ArmRun, index: nat, arms: Arms, env: Env, self: Value, fuel: nat, st: State, ps: Protocols, host: Host): Out
    decreases fuel, arms, 0
  {
    if arms.NoArms? then Ask(host, st)
    else if index > 0 then EvalArm(run, index - 1, arms.rest, env, self, fuel, st, ps, host)
    else
      var inner := Shadow(env, arms.names);
      var g := EvalAll(arms.guard, inner, self, fuel, st.(vars := BindAll(st.vars, arms.names, run.values)), ps, host);
      var b := if g.vs.None? then Out(None, g.st)
               else if !run.guardHolds then Ask(host, g.st)
               else Eval(arms.body, inner, self, fuel, g.st, ps, host);
      Out(b.v, b.st.(vars := Leave(st.vars, b.st.vars, Names(arms.names))))
  }

  function EvalRuns(runs: seq<ArmRun>, arms: Arms, env: Env, self: Value, fuel: nat, st: State, ps: Protocols, host: Host): Out
    decreases fuel, arms, 1 + |runs|
  {
    if runs == [] then Ask(host, st)
    else
      var b := EvalArm(runs[0], runs[0].index, arms, env, self, fuel, st, ps, host);
      if b.v.None? || |runs| == 1 then b else EvalRuns(runs[1..], arms, env, self, fuel, b.st, ps, host)
  }
}
