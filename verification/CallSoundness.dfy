/** What the actor-protocol pass resolves statically is what happens: every
    call it accepts reaches an actor of the resolved type, with a declared
    behavior and the declared number of arguments (src/actor_protocol.rs). */
module CallSoundness {
  import opened Options
  import opened ActorSyntax
  import opened AnnotatorLaws
  import opened ActorSemantics

  // ----- tracked bindings are not reassigned -----

  /** No assignment has as its target a binding that the pass tracks as an
      actor; `fixed` holds the names whose present binding is one. A binder of
      the same name starts afresh. */
  predicate Stable(e: Expr, env: Env, ps: Protocols, fixed: set<string>)
    decreases e
  {
    match e
    case Lit(_) => true
    case Var(_) => true
    case SelfRef => true
    case Prim(_, kids) => StableAll(kids, env, ps, fixed)
    case Lambda(params, body) => Stable(body, Shadow(env, params), ps, fixed - Names(params))
    case App(func, args) => Stable(func, env, ps, fixed) && StableAll(args, env, ps, fixed)
    case Let(name, value, body) =>
      var inner := Bind(env, name, ActorName(value, env), ps);
      Stable(value, env, ps, fixed) && Stable(body, inner, ps, Rebound(fixed, name, inner))
    case LetRec(name, params, value, body) =>
      var inner := Shadow(env, [name] + params);
      Stable(value, inner, ps, fixed - Names([name] + params)) && Stable(body, inner, ps, fixed - {name})
    case Branches(heads, arms) => StableAll(heads, env, ps, fixed) && StableArms(arms, env, ps, fixed)
    case Hide(names, body) => Stable(body, Shadow(env, names), ps, fixed - Names(names))
    case Seal(names, body) => Stable(body, Keep(env, names), ps, fixed)
    case Assign(target, value) =>
      (target.Var? ==> target.name !in fixed) && Stable(target, env, ps, fixed) && Stable(value, env, ps, fixed)
    case Spawn(actorType, args) => Stable(actorType, env, ps, fixed) && StableAll(args, env, ps, fixed)
    case Grain(_, key) => Stable(key, env, ps, fixed)
    case TypeAnnotate(inner, _) => Stable(inner, env, ps, fixed)
    case CapAnnotate(inner) => Stable(inner, env, ps, fixed)
    case Call(_, actor, _, args) => Stable(actor, env, ps, fixed) && StableAll(args, env, ps, fixed)
  }

  function Rebound(fixed: set<string>, name: string, inner: Env): set<string> {
    if name in inner.actors then fixed + {name} else fixed - {name}
  }

  predicate StableAll(es: Exprs, env: Env, ps: Protocols, fixed: set<string>)
    decreases es
  {
    es.Cons? ==> Stable(es.head, env, ps, fixed) && StableAll(es.tail, env, ps, fixed)
  }

  predicate StableArms(arms: Arms, env: Env, ps: Protocols, fixed: set<string>)
    decreases arms
  {
    arms.Arm? ==>
      var inner := Shadow(env, arms.names);
      StableAll(arms.guard, inner, ps, fixed - Names(arms.names)) && Stable(arms.body, inner, ps, fixed - Names(arms.names))
      && StableArms(arms.rest, env, ps, fixed)
  }

  // ----- the invariant -----

  /** The types of the module's tracked variables. */
  type Types = map<string, string>

  predicate IsActor(v: Value, ty: string) { v.Actor? && v.ty == ty }

  /** Variables that have a value have the one the scope says. */
  predicate Truthful(env: Env, vars: Vars, self: Value) {
    && (forall x :: x in env.actors && x in vars ==> IsActor(vars[x], env.actors[x]))
    && (env.current.Some? ==> IsActor(self, env.current.value))
  }

  /** The scope knows no variables but those of the module. */
  predicate Within(env: Env, decl: Types) { forall x :: x in env.actors ==> x in decl && decl[x] == env.actors[x] }

  ghost predicate StableCode(c: Code, ps: Protocols) {
    exists fixed: set<string> :: Shadow(c.env, c.params).actors.Keys <= fixed && Stable(c.body, Shadow(c.env, c.params), ps, fixed)
  }

  ghost predicate CodeOk(c: Code, ps: Protocols, decl: Types) {
    && Annotate(c.body, Shadow(c.env, c.params), ps).Some? && StableCode(c, ps)
    && if c.vars.Some? then Truthful(c.env, c.vars.value, c.self) else c.env.current.None? && Within(c.env, decl)
  }

  ghost predicate HeapOk(heap: seq<Code>, ps: Protocols, decl: Types) {
    forall i :: 0 <= i < |heap| ==> CodeOk(heap[i], ps, decl)
  }

  predicate GlobalsOk(globals: Vars, decl: Types) {
    forall x :: x in decl && x in globals ==> IsActor(globals[x], decl[x])
  }

  /** A resolved call went to an actor of the resolved type, to a behavior that
      type declares, with as many arguments as it declares. */
  predicate Sound(ev: Event, ps: Protocols) {
    ev.resolved.Some? ==>
      && IsActor(ev.target, ev.resolved.value)
      && Known(ps, ev.resolved.value) && CallOk(ev.resolved.value, ev.behavior, ev.nargs, ps)
  }

  predicate TraceOk(trace: seq<Event>, ps: Protocols) { forall i :: 0 <= i < |trace| ==> Sound(trace[i], ps) }

  ghost predicate StateOk(st: State, ps: Protocols, decl: Types) {
    HeapOk(st.heap, ps, decl) && TraceOk(st.trace, ps) && GlobalsOk(st.globals, decl)
  }

  /** Bindings that nobody assigns keep their values. */
  predicate Kept(before: Vars, after: Vars, fixed: set<string>) {
    forall x :: x in fixed && x in after ==> x in before && after[x] == before[x]
  }

  ghost predicate Ready(env: Env, self: Value, st: State, ps: Protocols, decl: Types, fixed: set<string>) {
    env.actors.Keys <= fixed && Truthful(env, st.vars, self) && StateOk(st, ps, decl)
  }

  ghost predicate Ends(st: State, st': State, ps: Protocols, decl: Types, fixed: set<string>) {
    StateOk(st', ps, decl) && Kept(st.vars, st'.vars, fixed) && st'.globals == st.globals
  }

  lemma {:induction false} StillReady(env: Env, self: Value, st: State, st': State, ps: Protocols, decl: Types, fixed: set<string>)
    requires Ready(env, self, st, ps, decl, fixed) && Ends(st, st', ps, decl, fixed)
    ensures Ready(env, self, st', ps, decl, fixed)
  {
    hide StateOk;
  }

  lemma {:induction false} EndsJoin(a: State, b: State, c: State, ps: Protocols, decl: Types, fixed: set<string>)
    requires Ends(a, b, ps, decl, fixed) && Ends(b, c, ps, decl, fixed)
    ensures Ends(a, c, ps, decl, fixed)
  {
    hide StateOk;
  }

  lemma {:induction false} EndsSelf(st: State, ps: Protocols, decl: Types, fixed: set<string>)
    requires StateOk(st, ps, decl)
    ensures Ends(st, st, ps, decl, fixed) && Ends(st, Tick(st), ps, decl, fixed)
  {
    hide HeapOk, TraceOk;
  }

  // ----- scopes -----

  /** Nothing but the names of a scope is new inside it. */
  predicate SameOff(outer: Vars, inner: Vars, names: set<string>) {
    forall x :: x in inner && x !in names ==> x in outer && outer[x] == inner[x]
  }

  lemma {:induction false} LeaveKeeps(outer: Vars, inner: Vars, end: Vars, names: set<string>, fixed: set<string>, within: set<string>)
    requires SameOff(outer, inner, names) && Kept(inner, end, within) && fixed - names <= within
    ensures Kept(outer, Leave(outer, end, names), fixed)
  {
  }

  lemma {:induction false} BindAllOff(vars: Vars, names: seq<string>, values: seq<Value>)
    ensures forall x :: x in BindAll(vars, names, values) && x !in names ==> x in vars && BindAll(vars, names, values)[x] == vars[x]
    decreases |names|
  {
    if names != [] {
      if values == [] {
        BindAllOff(vars - {names[0]}, names[1..], []);
      } else {
        BindAllOff(vars[names[0] := values[0]], names[1..], values[1..]);
      }
      assert forall x :: x !in names ==> x != names[0] && x !in names[1..];
    }
  }

  lemma {:induction false} EnterShadow(env: Env, self: Value, outer: Vars, inner: Vars, names: seq<string>, fixed: set<string>)
    requires Truthful(env, outer, self) && SameOff(outer, inner, Names(names)) && env.actors.Keys <= fixed
    ensures Truthful(Shadow(env, names), inner, self) && Shadow(env, names).actors.Keys <= fixed - Names(names)
  {
  }

  /** Leaving a scope: the whole construct ends well when its inside did. */
  lemma {:induction false} EndsScope(st: State, inner: State, end: State, names: set<string>, ps: Protocols, decl: Types, fixed: set<string>, within: set<string>)
    requires SameOff(st.vars, inner.vars, names) && Ends(inner, end, ps, decl, within) && fixed - names <= within
    requires inner.globals == st.globals
    ensures Ends(st, end.(vars := Leave(st.vars, end.vars, names)), ps, decl, fixed)
  {
    hide HeapOk, TraceOk, GlobalsOk;
    LeaveKeeps(st.vars, inner.vars, end.vars, names, fixed, within);
  }

  // ----- every run is sound -----

  /** The claim about one evaluation: it ends well, and an expression the pass
      takes for an actor of some type evaluates to one. */
  ghost predicate Goes(e: Expr, env: Env, st: State, o: Out, ps: Protocols, decl: Types, fixed: set<string>) {
    && Ends(st, o.st, ps, decl, fixed)
    && (o.v.Some? && ActorName(e, env).Some? ==> IsActor(o.v.value, ActorName(e, env).value))
  }

  lemma {:induction false} EvalSound(e: Expr, env: Env, self: Value, fuel: nat, st: State, ps: Protocols, host: Host, decl: Types, fixed: set<string>)
    requires Annotate(e, env, ps).Some? && Stable(e, env, ps, fixed) && Ready(env, self, st, ps, decl, fixed)
    ensures Goes(e, env, st, Eval(e, env, self, fuel, st, ps, host), ps, decl, fixed)
    decreases fuel, e, 1
  {
    hide Ready, StateOk, Shadow, Keep, Bind, AnnotateCall, Kept, Leave, BindAll;
    assert StateOk(st, ps, decl) by { ReadyState(env, self, st, ps, decl, fixed); }
    EndsSelf(st, ps, decl, fixed);
    match e
    case Lit(_) =>
    case Var(_) => VarSound(e, env, self, st, ps, decl, fixed);
    case SelfRef => VarSound(e, env, self, st, ps, decl, fixed);
    case Prim(_, kids) =>
      EvalAllSound(kids, env, self, fuel, st, ps, host, decl, fixed);
      TickEnds(st, EvalAll(kids, env, self, fuel, st, ps, host).st, ps, decl, fixed);
    case Lambda(params, body) => LambdaSound(e, env, self, st, ps, decl, fixed);
    case App(_, _) => AppSound(e, env, self, fuel, st, ps, host, decl, fixed);
    case Let(_, _, _) => LetSound(e, env, self, fuel, st, ps, host, decl, fixed);
    case LetRec(_, _, _, _) => LetRecSound(e, env, self, fuel, st, ps, host, decl, fixed);
    case Branches(heads, arms) =>
      EvalAllSound(heads, env, self, fuel, st, ps, host, decl, fixed);
      var h := EvalAll(heads, env, self, fuel, st, ps, host);
      if h.vs.Some? {
        TickEnds(st, h.st, ps, decl, fixed);
        StillReady(env, self, st, Tick(h.st), ps, decl, fixed);
        RunsSound(host.runs(h.st.clock), arms, env, self, fuel, Tick(h.st), ps, host, decl, fixed);
        EndsJoin(st, Tick(h.st), Eval(e, env, self, fuel, st, ps, host).st, ps, decl, fixed);
      }
    case Hide(_, _) => HideSound(e, env, self, fuel, st, ps, host, decl, fixed);
    case Seal(_, _) => SealSound(e, env, self, fuel, st, ps, host, decl, fixed);
    case Assign(_, _) => AssignSound(e, env, self, fuel, st, ps, host, decl, fixed);
    case Spawn(_, _) => SpawnSound(e, env, self, fuel, st, ps, host, decl, fixed);
    case Grain(_, key) =>
      EvalSound(key, env, self, fuel, st, ps, host, decl, fixed);
      TickEnds(st, Eval(key, env, self, fuel, st, ps, host).st, ps, decl, fixed);
    case TypeAnnotate(inner, _) => EvalSound(inner, env, self, fuel, st, ps, host, decl, fixed);
    case CapAnnotate(inner) => EvalSound(inner, env, self, fuel, st, ps, host, decl, fixed);
    case Call(_, _, _, _) => CallSound(e, env, self, fuel, st, ps, host, decl, fixed);
  }

  lemma {:induction false} ReadyState(env: Env, self: Value, st: State, ps: Protocols, decl: Types, fixed: set<string>)
    requires Ready(env, self, st, ps, decl, fixed)
    ensures StateOk(st, ps, decl)
  {
  }

  lemma {:induction false} TickEnds(st: State, st': State, ps: Protocols, decl: Types, fixed: set<string>)
    requires Ends(st, st', ps, decl, fixed)
    ensures Ends(st, Tick(st'), ps, decl, fixed)
  {
    hide HeapOk, TraceOk;
  }

  lemma {:induction false} VarSound(e: Expr, env: Env, self: Value, st: State, ps: Protocols, decl: Types, fixed: set<string>)
    requires (e.Var? || e.SelfRef?) && Ready(env, self, st, ps, decl, fixed)
    ensures e.Var? && ActorName(e, env).Some? && e.name in st.vars ==> IsActor(st.vars[e.name], ActorName(e, env).value)
    ensures e.SelfRef? && ActorName(e, env).Some? ==> IsActor(self, ActorName(e, env).value)
  {
    hide StateOk;
  }

  lemma {:induction false} EvalAllSound(es: Exprs, env: Env, self: Value, fuel: nat, st: State, ps: Protocols, host: Host, decl: Types, fixed: set<string>)
    requires AnnotateAll(es, env, ps).Some? && StableAll(es, env, ps, fixed) && Ready(env, self, st, ps, decl, fixed)
    ensures Ends(st, EvalAll(es, env, self, fuel, st, ps, host).st, ps, decl, fixed)
    decreases fuel, es, 0
  {
    hide Ready, StateOk, Annotate, Stable, Eval, ActorName, Kept;
    assert StateOk(st, ps, decl) by { ReadyState(env, self, st, ps, decl, fixed); }
    EndsSelf(st, ps, decl, fixed);
    if es.Cons? {
      EvalSound(es.head, env, self, fuel, st, ps, host, decl, fixed);
      var h := Eval(es.head, env, self, fuel, st, ps, host);
      if h.v.Some? {
        StillReady(env, self, st, h.st, ps, decl, fixed);
        EvalAllSound(es.tail, env, self, fuel, h.st, ps, host, decl, fixed);
        EndsJoin(st, h.st, EvalAll(es.tail, env, self, fuel, h.st, ps, host).st, ps, decl, fixed);
      }
    }
  }

  // ----- closures -----

  lemma {:induction false} PushCode(st: State, c: Code, ps: Protocols, decl: Types)
    requires StateOk(st, ps, decl) && CodeOk(c, ps, decl)
    ensures StateOk(st.(heap := st.heap + [c]), ps, decl)
  {
    hide CodeOk, TraceOk;
  }

  lemma {:induction false} LambdaSound(e: Expr, env: Env, self: Value, st: State, ps: Protocols, decl: Types, fixed: set<string>)
    requires e.Lambda? && Annotate(e, env, ps).Some? && Stable(e, env, ps, fixed) && Ready(env, self, st, ps, decl, fixed)
    ensures Ends(st, st.(heap := st.heap + [Code(e.params, e.body, Some(st.vars), env, self)]), ps, decl, fixed)
  {
    hide StateOk, Truthful;
    var c := Code(e.params, e.body, Some(st.vars), env, self);
    assert Shadow(env, e.params).actors.Keys <= fixed - Names(e.params);
    assert StableCode(c, ps);
    PushCode(st, c, ps, decl);
  }

  lemma {:induction false} EnterCode(c: Code, st: State, values: seq<Value>, ps: Protocols, decl: Types, fixed: set<string>)
    requires CodeOk(c, ps, decl) && StateOk(st, ps, decl) && Shadow(c.env, c.params).actors.Keys <= fixed
    ensures Ready(Shadow(c.env, c.params), c.self, st.(vars := BindAll(Scope(c, st), c.params, values)), ps, decl, fixed)
  {
    hide HeapOk, TraceOk, Annotate, StableCode, BindAll;
    var vars := Scope(c, st);
    assert Truthful(c.env, vars, c.self);
    BindAllOff(vars, c.params, values);
    EnterShadow(c.env, c.self, vars, BindAll(vars, c.params, values), c.params, c.env.actors.Keys);
  }

  lemma {:induction false} CodeInHeap(st: State, i: nat, ps: Protocols, decl: Types)
    requires StateOk(st, ps, decl) && i < |st.heap|
    ensures CodeOk(st.heap[i], ps, decl)
  {
  }

  lemma {:induction false} EndsState(st: State, st': State, ps: Protocols, decl: Types, fixed: set<string>)
    requires Ends(st, st', ps, decl, fixed)
    ensures StateOk(st', ps, decl) && st'.globals == st.globals
  {
  }

  lemma {:induction false} ReturnTo(st: State, caller: State, end: State, ps: Protocols, decl: Types, fixed: set<string>)
    requires Ends(st, caller, ps, decl, fixed) && StateOk(end, ps, decl) && end.globals == caller.globals
    ensures Ends(st, end.(vars := caller.vars), ps, decl, fixed)
  {
    hide HeapOk, TraceOk;
  }

  lemma {:induction false} AppSound(e: Expr, env: Env, self: Value, fuel: nat, st: State, ps: Protocols, host: Host, decl: Types, fixed: set<string>)
    requires e.App? && Annotate(e, env, ps).Some? && Stable(e, env, ps, fixed) && Ready(env, self, st, ps, decl, fixed)
    ensures Ends(st, Eval(e, env, self, fuel, st, ps, host).st, ps, decl, fixed)
    decreases fuel, e, 0
  {
    hide Ready, StateOk, Ends, ActorName, Shadow, BindAll, CodeOk;
    EvalSound(e.func, env, self, fuel, st, ps, host, decl, fixed);
    var f := Eval(e.func, env, self, fuel, st, ps, host);
    if f.v.Some? {
      StillReady(env, self, st, f.st, ps, decl, fixed);
      EvalAllSound(e.args, env, self, fuel, f.st, ps, host, decl, fixed);
      var a := EvalAll(e.args, env, self, fuel, f.st, ps, host);
      EndsJoin(st, f.st, a.st, ps, decl, fixed);
      TickEnds(st, a.st, ps, decl, fixed);
      if a.vs.Some? && Callable(f.v.value, a.st) && fuel > 0 {
        var code := a.st.heap[f.v.value.at];
        EndsState(st, a.st, ps, decl, fixed);
        CodeInHeap(a.st, f.v.value.at, ps, decl);
        var within := CodeParts(code, ps, decl);
        EnterCode(code, a.st, a.vs.value, ps, decl, within);
        var inner := a.st.(vars := BindAll(Scope(code, a.st), code.params, a.vs.value));
        EvalSound(code.body, Shadow(code.env, code.params), code.self, fuel - 1, inner, ps, host, decl, within);
        var b := Eval(code.body, Shadow(code.env, code.params), code.self, fuel - 1, inner, ps, host);
        EndsState(inner, b.st, ps, decl, within);
        ReturnTo(st, a.st, b.st, ps, decl, fixed);
      }
    }
  }

  lemma {:induction false} CodeParts(c: Code, ps: Protocols, decl: Types) returns (fixed: set<string>)
    requires CodeOk(c, ps, decl)
    ensures Annotate(c.body, Shadow(c.env, c.params), ps).Some? && Stable(c.body, Shadow(c.env, c.params), ps, fixed)
    ensures Shadow(c.env, c.params).actors.Keys <= fixed
  {
    fixed :| Shadow(c.env, c.params).actors.Keys <= fixed && Stable(c.body, Shadow(c.env, c.params), ps, fixed);
  }

  // ----- binders -----

  lemma {:induction false} EnterLet(env: Env, self: Value, st: State, name: string, v: Value, actor: Option<string>, ps: Protocols, decl: Types, fixed: set<string>)
    requires Ready(env, self, st, ps, decl, fixed) && (actor.Some? ==> IsActor(v, actor.value))
    ensures var inner := Bind(env, name, actor, ps);
            Ready(inner, self, st.(vars := st.vars[name := v]), ps, decl, Rebound(fixed, name, inner))
  {
    hide HeapOk, TraceOk, GlobalsOk;
  }

  lemma {:induction false} LetSound(e: Expr, env: Env, self: Value, fuel: nat, st: State, ps: Protocols, host: Host, decl: Types, fixed: set<string>)
    requires e.Let? && Annotate(e, env, ps).Some? && Stable(e, env, ps, fixed) && Ready(env, self, st, ps, decl, fixed)
    ensures Ends(st, Eval(e, env, self, fuel, st, ps, host).st, ps, decl, fixed)
    decreases fuel, e, 0
  {
    hide Ready, StateOk, Kept, Leave, Bind, ActorName;
    EvalSound(e.value, env, self, fuel, st, ps, host, decl, fixed);
    var v := Eval(e.value, env, self, fuel, st, ps, host);
    if v.v.Some? {
      StillReady(env, self, st, v.st, ps, decl, fixed);
      AnnotateKeepsActor(e.value, env, ps, env);
      var actor := ActorName(e.value, env);
      EnterLet(env, self, v.st, e.name, v.v.value, actor, ps, decl, fixed);
      var inner := v.st.(vars := v.st.vars[e.name := v.v.value]);
      var within := Rebound(fixed, e.name, Bind(env, e.name, actor, ps));
      EvalSound(e.body, Bind(env, e.name, actor, ps), self, fuel, inner, ps, host, decl, within);
      var b := Eval(e.body, Bind(env, e.name, actor, ps), self, fuel, inner, ps, host);
      EndsScope(v.st, inner, b.st, {e.name}, ps, decl, fixed, within);
      EndsJoin(st, v.st, b.st.(vars := Leave(v.st.vars, b.st.vars, {e.name})), ps, decl, fixed);
    }
  }

  lemma {:induction false} ShadowTwice(env: Env, name: string, params: seq<string>)
    ensures Shadow(Shadow(env, [name] + params), params) == Shadow(env, [name] + params)
  {
    var inner := Shadow(env, [name] + params);
    assert Shadow(inner, params).actors == inner.actors;
  }

  lemma {:induction false} LetRecSound(e: Expr, env: Env, self: Value, fuel: nat, st: State, ps: Protocols, host: Host, decl: Types, fixed: set<string>)
    requires e.LetRec? && Annotate(e, env, ps).Some? && Stable(e, env, ps, fixed) && Ready(env, self, st, ps, decl, fixed)
    ensures Ends(st, Eval(e, env, self, fuel, st, ps, host).st, ps, decl, fixed)
    decreases fuel, e, 0
  {
    hide StateOk, Kept, Leave, Shadow, Truthful;
    var LetRec(name, params, value, body) := e;
    var inner, at := Shadow(env, [name] + params), |st.heap|;
    var vars := st.vars[name := Closure(at)];
    var code := Code(params, value, Some(vars), inner, self);
    ShadowTwice(env, name, params);
    EnterShadow(env, self, st.vars, vars, [name] + params, fixed);
    assert inner.actors.Keys <= fixed - Names([name] + params);
    assert StableCode(code, ps);
    PushCode(st, code, ps, decl);
    var st1 := st.(vars := vars, heap := st.heap + [code]);
    assert StateOk(st1, ps, decl) by { SameButVars(st.(heap := st.heap + [code]), st1, ps, decl); }
    assert inner.actors.Keys <= fixed - {name} by { assert name in [name] + params; }
    EvalSound(body, inner, self, fuel, st1, ps, host, decl, fixed - {name});
    EndsScope(st, st1, Eval(body, inner, self, fuel, st1, ps, host).st, {name}, ps, decl, fixed, fixed - {name});
  }

  lemma {:induction false} SameButVars(a: State, b: State, ps: Protocols, decl: Types)
    requires StateOk(a, ps, decl) && a.heap == b.heap && a.trace == b.trace && a.globals == b.globals
    ensures StateOk(b, ps, decl)
  {
    hide HeapOk, TraceOk;
  }

  lemma {:induction false} HideSound(e: Expr, env: Env, self: Value, fuel: nat, st: State, ps: Protocols, host: Host, decl: Types, fixed: set<string>)
    requires e.Hide? && Annotate(e, env, ps).Some? && Stable(e, env, ps, fixed) && Ready(env, self, st, ps, decl, fixed)
    ensures Ends(st, Eval(e, env, self, fuel, st, ps, host).st, ps, decl, fixed)
    decreases fuel, e, 0
  {
    hide StateOk, Kept, Leave, Shadow;
    var inner := st.(vars := st.vars - Names(e.names));
    var within := fixed - Names(e.names);
    EnterShadow(env, self, st.vars, inner.vars, e.names, fixed);
    SameButVars(st, inner, ps, decl);
    EvalSound(e.body, Shadow(env, e.names), self, fuel, inner, ps, host, decl, within);
    EndsScope(st, inner, Eval(e.body, Shadow(env, e.names), self, fuel, inner, ps, host).st, Names(e.names), ps, decl, fixed, within);
  }

  lemma {:induction false} SealSound(e: Expr, env: Env, self: Value, fuel: nat, st: State, ps: Protocols, host: Host, decl: Types, fixed: set<string>)
    requires e.Seal? && Annotate(e, env, ps).Some? && Stable(e, env, ps, fixed) && Ready(env, self, st, ps, decl, fixed)
    ensures Ends(st, Eval(e, env, self, fuel, st, ps, host).st, ps, decl, fixed)
    decreases fuel, e, 0
  {
    hide StateOk, Kept, Leave;
    var hidden := st.vars.Keys - Names(e.names);
    var inner := st.(vars := st.vars - hidden);
    SameButVars(st, inner, ps, decl);
    EvalSound(e.body, Keep(env, e.names), self, fuel, inner, ps, host, decl, fixed);
    EndsScope(st, inner, Eval(e.body, Keep(env, e.names), self, fuel, inner, ps, host).st, hidden, ps, decl, fixed, fixed);
  }

  // ----- assignment, spawning and calls -----

  lemma {:induction false} AssignSound(e: Expr, env: Env, self: Value, fuel: nat, st: State, ps: Protocols, host: Host, decl: Types, fixed: set<string>)
    requires e.Assign? && Annotate(e, env, ps).Some? && Stable(e, env, ps, fixed) && Ready(env, self, st, ps, decl, fixed)
    ensures Ends(st, Eval(e, env, self, fuel, st, ps, host).st, ps, decl, fixed)
    decreases fuel, e, 0
  {
    hide Ready, StateOk, ActorName;
    if e.target.Var? {
      EvalSound(e.value, env, self, fuel, st, ps, host, decl, fixed);
      var v := Eval(e.value, env, self, fuel, st, ps, host);
      if v.v.Some? && e.target.name in v.st.vars {
        SameButVars(v.st, v.st.(vars := v.st.vars[e.target.name := v.v.value]), ps, decl);
      }
    } else {
      EvalSound(e.target, env, self, fuel, st, ps, host, decl, fixed);
      var t := Eval(e.target, env, self, fuel, st, ps, host);
      if t.v.Some? {
        StillReady(env, self, st, t.st, ps, decl, fixed);
        EvalSound(e.value, env, self, fuel, t.st, ps, host, decl, fixed);
        EndsJoin(st, t.st, Eval(e.value, env, self, fuel, t.st, ps, host).st, ps, decl, fixed);
      }
    }
  }

  lemma {:induction false} SpawnSound(e: Expr, env: Env, self: Value, fuel: nat, st: State, ps: Protocols, host: Host, decl: Types, fixed: set<string>)
    requires e.Spawn? && Annotate(e, env, ps).Some? && Stable(e, env, ps, fixed) && Ready(env, self, st, ps, decl, fixed)
    ensures Goes(e, env, st, Eval(e, env, self, fuel, st, ps, host), ps, decl, fixed)
    decreases fuel, e, 0
  {
    hide Ready, StateOk, Kept;
    if e.actorType.Var? {
      EvalAllSound(e.args, env, self, fuel, st, ps, host, decl, fixed);
      TickEnds(st, EvalAll(e.args, env, self, fuel, st, ps, host).st, ps, decl, fixed);
    } else {
      EvalSound(e.actorType, env, self, fuel, st, ps, host, decl, fixed);
      var t := Eval(e.actorType, env, self, fuel, st, ps, host);
      if t.v.Some? {
        StillReady(env, self, st, t.st, ps, decl, fixed);
        EvalAllSound(e.args, env, self, fuel, t.st, ps, host, decl, fixed);
        var a := EvalAll(e.args, env, self, fuel, t.st, ps, host);
        EndsJoin(st, t.st, a.st, ps, decl, fixed);
        TickEnds(st, a.st, ps, decl, fixed);
      }
    }
  }

  lemma {:induction false} CallAccepted(e: Expr, env: Env, ps: Protocols)
    requires e.Call? && Annotate(e, env, ps).Some?
    ensures Annotate(e.actor, env, ps).Some? && AnnotateAll(e.args, env, ps).Some?
    ensures var r := Resolve(e.actor, env, ps); r.Some? ==> Known(ps, r.value) && CallOk(r.value, e.behavior, Length(e.args), ps)
  {
    hide ActorName;
    AnnotateKeepsActor(e.actor, env, ps, env);
  }

  lemma {:induction false} Record(st: State, st': State, ev: Event, ps: Protocols, decl: Types, fixed: set<string>)
    requires Ends(st, st', ps, decl, fixed) && Sound(ev, ps)
    ensures Ends(st, Tick(st'.(trace := st'.trace + [ev])), ps, decl, fixed)
  {
    hide HeapOk, Sound;
  }

  lemma {:induction false} CallSound(e: Expr, env: Env, self: Value, fuel: nat, st: State, ps: Protocols, host: Host, decl: Types, fixed: set<string>)
    requires e.Call? && Annotate(e, env, ps).Some? && Stable(e, env, ps, fixed) && Ready(env, self, st, ps, decl, fixed)
    ensures Ends(st, Eval(e, env, self, fuel, st, ps, host).st, ps, decl, fixed)
    decreases fuel, e, 0
  {
    hide Ready, Ends, CallOk;
    CallAccepted(e, env, ps);
    EvalSound(e.actor, env, self, fuel, st, ps, host, decl, fixed);
    var t := Eval(e.actor, env, self, fuel, st, ps, host);
    if t.v.Some? {
      StillReady(env, self, st, t.st, ps, decl, fixed);
      EvalAllSound(e.args, env, self, fuel, t.st, ps, host, decl, fixed);
      var a := EvalAll(e.args, env, self, fuel, t.st, ps, host);
      EndsJoin(st, t.st, a.st, ps, decl, fixed);
      if a.vs.Some? {
        var event := Called(t.v.value, e.behavior, |a.vs.value|, Resolve(e.actor, env, ps));
        assert Sound(event, ps);
        Record(st, a.st, event, ps, decl, fixed);
      }
    }
  }

  // ----- arms -----

  lemma {:induction false} ArmSound(run: ArmRun, index: nat, arms: Arms, env: Env, self: Value, fuel: nat, st: State, ps: Protocols, host: Host, decl: Types, fixed: set<string>)
    requires AnnotateArms(arms, env, ps).Some? && StableArms(arms, env, ps, fixed) && Ready(env, self, st, ps, decl, fixed)
    ensures Ends(st, EvalArm(run, index, arms, env, self, fuel, st, ps, host).st, ps, decl, fixed)
    decreases fuel, arms, 0
  {
    hide StateOk, Kept, Leave, Shadow, BindAll, ActorName;
    EndsSelf(st, ps, decl, fixed);
    if arms.Arm? {
      if index > 0 {
        ArmSound(run, index - 1, arms.rest, env, self, fuel, st, ps, host, decl, fixed);
      } else {
        var inner, st1 := Shadow(env, arms.names), st.(vars := BindAll(st.vars, arms.names, run.values));
        var within := fixed - Names(arms.names);
        BindAllOff(st.vars, arms.names, run.values);
        EnterShadow(env, self, st.vars, st1.vars, arms.names, fixed);
        SameButVars(st, st1, ps, decl);
        EvalAllSound(arms.guard, inner, self, fuel, st1, ps, host, decl, within);
        var g := EvalAll(arms.guard, inner, self, fuel, st1, ps, host);
        TickEnds(st1, g.st, ps, decl, within);
        if g.vs.Some? && run.guardHolds {
          StillReady(inner, self, st1, g.st, ps, decl, within);
          EvalSound(arms.body, inner, self, fuel, g.st, ps, host, decl, within);
          EndsJoin(st1, g.st, Eval(arms.body, inner, self, fuel, g.st, ps, host).st, ps, decl, within);
          EndsScope(st, st1, Eval(arms.body, inner, self, fuel, g.st, ps, host).st, Names(arms.names), ps, decl, fixed, within);
        } else if g.vs.Some? {
          EndsScope(st, st1, Tick(g.st), Names(arms.names), ps, decl, fixed, within);
        } else {
          EndsScope(st, st1, g.st, Names(arms.names), ps, decl, fixed, within);
        }
      }
    }
  }

  lemma {:induction false} RunsSound(runs: seq<ArmRun>, arms: Arms, env: Env, self: Value, fuel: nat, st: State, ps: Protocols, host: Host, decl: Types, fixed: set<string>)
    requires AnnotateArms(arms, env, ps).Some? && StableArms(arms, env, ps, fixed) && Ready(env, self, st, ps, decl, fixed)
    ensures Ends(st, EvalRuns(runs, arms, env, self, fuel, st, ps, host).st, ps, decl, fixed)
    decreases fuel, arms, 1 + |runs|
  {
    hide StateOk, Ready, EvalArm, AnnotateArms, StableArms;
    assert StateOk(st, ps, decl) by { ReadyState(env, self, st, ps, decl, fixed); }
    EndsSelf(st, ps, decl, fixed);
    if runs != [] {
      ArmSound(runs[0], runs[0].index, arms, env, self, fuel, st, ps, host, decl, fixed);
      var b := EvalArm(runs[0], runs[0].index, arms, env, self, fuel, st, ps, host);
      if b.v.Some? && |runs| > 1 {
        StillReady(env, self, st, b.st, ps, decl, fixed);
        RunsSound(runs[1..], arms, env, self, fuel, b.st, ps, host, decl, fixed);
        EndsJoin(st, b.st, EvalRuns(runs[1..], arms, env, self, fuel, b.st, ps, host).st, ps, decl, fixed);
      }
    }
  }

  const START := State(map[], map[], [], [], 0)

  /** In any run of an accepted expression whose tracked bindings are not
      reassigned, for any host and any number of calls, each call the pass
      resolved reached what it was resolved to. */
  lemma {:induction false} AcceptedProgramsAreSound(e: Expr, self: Value, fuel: nat, ps: Protocols, host: Host)
    requires Annotate(e, Env(map[], None), ps).Some? && Stable(e, Env(map[], None), ps, {})
    ensures TraceOk(Eval(e, Env(map[], None), self, fuel, START, ps, host).st.trace, ps)
  {
    hide Annotate, Stable, Eval;
    EvalSound(e, Env(map[], None), self, fuel, START, ps, host, map[], {});
  }

  // ----- reassignment -----

  /** An actor variable bound to one type, reassigned to another and called. */
  function Reassigned(x: string, first: string, second: string, behavior: string): Expr {
    Let(x, Spawn(Var(first), Nil),
      Prim(0, Cons(Assign(Var(x), Spawn(Var(second), Nil)), Cons(Call(false, Var(x), behavior, Nil), Nil))))
  }

  function OneBehavior(actor: string, behavior: string): Protocols {
    map[actor := Protocol(map[behavior := Sig([], None)], false)]
  }

  lemma {:induction false} ReassignedAccepted(x: string, first: string, second: string, behavior: string)
    requires !Qualified(first, behavior)
    ensures Annotate(Reassigned(x, first, second, behavior), Env(map[], None), OneBehavior(first, behavior)).Some?
  {
    hide Qualified;
    var e, top, ps := Reassigned(x, first, second, behavior), Env(map[], None), OneBehavior(first, behavior);
    var inner := Bind(top, x, Some(first), ps);
    var assign, call := Assign(Var(x), Spawn(Var(second), Nil)), Call(false, Var(x), behavior, Nil);
    assert Resolve(Var(x), inner, ps) == Some(first);
    assert Annotate(call, inner, ps).Some?;
    assert Annotate(Spawn(Var(second), Nil), inner, ps) == Some(Spawn(Var(second), Nil));
    assert Annotate(assign, inner, ps) == Some(assign);
    assert AnnotateAll(Cons(call, Nil), inner, ps).Some?;
    assert AnnotateAll(Cons(assign, Cons(call, Nil)), inner, ps).Some?;
    assert Annotate(e.body, inner, ps).Some?;
    assert Annotate(e.value, top, ps) == Some(e.value) && ActorName(e.value, top) == Some(first);
  }

  lemma {:induction false} CalledSound(first: string, second: string, behavior: string)
    requires !Qualified(first, behavior)
    ensures Sound(Called(Actor(1, second), behavior, 0, Some(first)), OneBehavior(first, behavior)) <==> first == second
  {
    hide Qualified;
  }

  lemma {:induction false} ReassignedSteps(x: string, first: string, second: string, behavior: string, self: Value, fuel: nat, host: Host)
    requires !Qualified(first, behavior)
    ensures var ps := OneBehavior(first, behavior);
            var inner := Bind(Env(map[], None), x, Some(first), ps);
            var s1 := State(map[x := Actor(0, first)], map[], [], [], 1);
            var kids := Cons(Assign(Var(x), Spawn(Var(second), Nil)), Cons(Call(false, Var(x), behavior, Nil), Nil));
            EvalAll(kids, inner, self, fuel, s1, ps, host).st.trace == [Called(Actor(1, second), behavior, 0, Some(first))]
  {
    hide Qualified, Annotate;
    var ps := OneBehavior(first, behavior);
    var inner := Bind(Env(map[], None), x, Some(first), ps);
    var assign, call := Assign(Var(x), Spawn(Var(second), Nil)), Call(false, Var(x), behavior, Nil);
    assert Resolve(Var(x), inner, ps) == Some(first);
    var s1, s2 := State(map[x := Actor(0, first)], map[], [], [], 1), State(map[x := Actor(1, second)], map[], [], [], 2);
    assert EvalAll(Nil, inner, self, fuel, s1, ps, host) == Outs(Some([]), s1);
    assert Eval(Spawn(Var(second), Nil), inner, self, fuel, s1, ps, host) == Out(Some(Actor(1, second)), s1.(clock := 2));
    assert s1.vars[x := Actor(1, second)] == s2.vars;
    assert Eval(assign, inner, self, fuel, s1, ps, host) == Out(Some(Data(0)), s2);
    var c := Eval(call, inner, self, fuel, s2, ps, host);
    assert Eval(Var(x), inner, self, fuel, s2, ps, host) == Out(Some(Actor(1, second)), s2);
    assert EvalAll(Nil, inner, self, fuel, s2, ps, host) == Outs(Some([]), s2);
    assert c.v.Some? && c.st.trace == [Called(Actor(1, second), behavior, 0, Some(first))];
    assert EvalAll(Cons(call, Nil), inner, self, fuel, s2, ps, host).st.trace == c.st.trace;
  }

  /** The pass accepts it, checking the call against the first type, while the
      call reaches an actor of the second: its runs are sound exactly when the
      two types are one. */
  lemma {:induction false} ReassignmentMisleads(x: string, first: string, second: string, behavior: string, self: Value, fuel: nat, host: Host)
    requires !Qualified(first, behavior)
    ensures var e, top, ps := Reassigned(x, first, second, behavior), Env(map[], None), OneBehavior(first, behavior);
            && Annotate(e, top, ps).Some?
            && Eval(e, top, self, fuel, START, ps, host).st.trace == [Called(Actor(1, second), behavior, 0, Some(first))]
            && (TraceOk(Eval(e, top, self, fuel, START, ps, host).st.trace, ps) <==> first == second)
  {
    hide Qualified, Annotate, EvalAll, Sound, Bind;
    ReassignedAccepted(x, first, second, behavior);
    ReassignedSteps(x, first, second, behavior, self, fuel, host);
    var e, top, ps := Reassigned(x, first, second, behavior), Env(map[], None), OneBehavior(first, behavior);
    var inner := Bind(top, x, Some(first), ps);
    var s1 := State(map[x := Actor(0, first)], map[], [], [], 1);
    assert EvalAll(Nil, top, self, fuel, START, ps, host) == Outs(Some([]), START) by { NothingEvaluated(top, self, fuel, ps, host); }
    assert Eval(e.value, top, self, fuel, START, ps, host) == Out(Some(Actor(0, first)), START.(clock := 1));
    assert START.(clock := 1).(vars := START.vars[x := Actor(0, first)]) == s1;
    assert Eval(e.body, inner, self, fuel, s1, ps, host).st.trace == EvalAll(e.body.kids, inner, self, fuel, s1, ps, host).st.trace;
    var o := Eval(e, top, self, fuel, START, ps, host);
    CalledSound(first, second, behavior);
    assert TraceOk(o.st.trace, ps) <==> Sound(o.st.trace[0], ps);
  }

  lemma {:induction false} NothingEvaluated(env: Env, self: Value, fuel: nat, ps: Protocols, host: Host)
    ensures EvalAll(Nil, env, self, fuel, START, ps, host) == Outs(Some([]), START)
  {
  }
}
