/** Running whole modules: variables, functions, actors, state machines and
    workflows. Every call the actor-protocol pass resolved in an accepted
    module reaches what it was resolved to (src/actor_protocol.rs). */
module ModuleSoundness {
  import opened Options
  import opened ActorSyntax
  import opened AnnotatorLaws
  import opened ActorModules
  import opened ActorSemantics
  import opened CallSoundness

  // ----- what a module can run -----

  /** A piece of code alone, the value of a variable, or a named function. */
  datatype Role = Plain | Variable(name: string) | Named(name: string)

  /** Code with the parameters it runs under and the scope it was checked in. */
  datatype Entry = Entry(role: Role, params: seq<string>, body: Expr, env: Env)

  function EachOf(es: Exprs, params: seq<string>, env: Env): seq<Entry> {
    if es.Nil? then [] else [Entry(Plain, params, es.head, env)] + EachOf(es.tail, params, env)
  }

  function BehaviorEntries(bs: Behaviors, env: Env): seq<Entry> {
    if bs.NoBehaviors? then []
    else [Entry(Plain, bs.params, bs.body, Shadow(env, bs.params))] + BehaviorEntries(bs.rest, env)
  }

  /** Hooks are copied into the handler of each event, under its parameters. */
  function HookEntries(events: seq<MachineEvent>, hooks: Exprs, env: Env): seq<Entry> {
    if events == [] then [] else EachOf(hooks, events[0].params, env) + HookEntries(events[1..], hooks, env)
  }

  function DeclEntries(d: Decl, env: Env, ps: Protocols): seq<Entry>
    decreases d
  {
    match d
    case FunctionDecl(name, params, defaults, contracts, body) =>
      var inner := Shadow(env, [name] + params);
      EachOf(defaults, [], env) + EachOf(contracts, params, inner) + [Entry(Named(name), params, body, inner)]
    case ActorDecl(name, fields, initParams, initializer, behaviors) =>
      var inner := env.(current := Some(name));
      EachOf(fields, [], inner) + EachOf(initializer, initParams, Shadow(inner, initParams)) + BehaviorEntries(behaviors, inner)
    case MachineDecl(name, events, hooks) => HookEntries(events, hooks, env.(current := Some(name)))
    case LetDecl(name, value) => [Entry(Variable(name), [], value, env)]
    case WorkflowDecl(input, steps) => EachOf(steps, input, Shadow(env, input))
    case ModuleDecl(decls) => DeclsEntries(decls, env, ps)
    case OtherDecl(_) => []
  }

  function DeclsEntries(ds: Decls, env: Env, ps: Protocols): seq<Entry>
    decreases ds
  {
    if ds.Done? then [] else DeclEntries(ds.head, env, ps) + DeclsEntries(ds.tail, Extend(ds.head, env, ps), ps)
  }

  // ----- runs -----

  /** Functions are there from the start, whatever their order. */
  function Hoisted(entries: seq<Entry>): State {
    if entries == [] then START
    else
      var st, last := Hoisted(entries[..|entries| - 1]), entries[|entries| - 1];
      if last.role.Named? then
        st.(heap := st.heap + [Code(last.params, last.body, None, last.env, Data(0))],
            globals := st.globals[last.role.name := Closure(|st.heap|)])
      else st
  }

  /** One run of an entry: initialising a variable, calling a function,
      handling a message, with any arguments and any amount of fuel. */
  datatype Activation = Activation(index: nat, self: Value, values: seq<Value>, fuel: nat)

  /** The code of an actor runs in an actor of that type. */
  predicate Allowed(entries: seq<Entry>, act: Activation) {
    act.index < |entries| &&
    var current := entries[act.index].env.current;
    current.Some? ==> IsActor(act.self, current.value)
  }

  function Activate(en: Entry, act: Activation, st: State, ps: Protocols, host: Host): State {
    var o := Eval(en.body, en.env, act.self, act.fuel, st.(vars := BindAll(st.globals, en.params, act.values)), ps, host);
    if en.role.Variable? && o.v.Some? then o.st.(globals := o.st.globals[en.role.name := o.v.value]) else o.st
  }

  /** Entries run one after the other, in any order and any number of times:
      variables initialised in order, or anew at each use, are special cases. */
  function RunModule(entries: seq<Entry>, acts: seq<Activation>, st: State, ps: Protocols, host: Host): State
    requires forall i :: 0 <= i < |acts| ==> Allowed(entries, acts[i])
    decreases |acts|
  {
    if acts == [] then st
    else
      assert Allowed(entries, acts[0]);
      RunModule(entries, acts[1..], Activate(entries[acts[0].index], acts[0], st, ps, host), ps, host)
  }

  // ----- tracked bindings are neither reassigned nor redeclared -----

  /** A tracked variable has its one type in `decl`; no other has an entry. */
  predicate BindingOk(name: string, actor: Option<string>, ps: Protocols, decl: Types) {
    if actor.Some? && Known(ps, actor.value) then name in decl && decl[name] == actor.value else name !in decl
  }

  predicate Clear(params: seq<string>, env: Env) { forall i :: 0 <= i < |params| ==> params[i] !in env.actors }

  predicate StableBehaviors(bs: Behaviors, env: Env, ps: Protocols)
    decreases bs
  {
    bs.Behavior? ==>
      var inner := Shadow(env, bs.params);
      Stable(bs.body, inner, ps, inner.actors.Keys) && StableBehaviors(bs.rest, env, ps)
  }

  /** Variables and functions are declared under names of their own, event
      parameters hide no tracked variable from the hooks, and no code assigns
      a tracked binding. */
  predicate Settled(d: Decl, env: Env, ps: Protocols, decl: Types)
    decreases d
  {
    match d
    case FunctionDecl(name, params, defaults, contracts, body) =>
      var inner := Shadow(env, [name] + params);
      && name !in decl && StableAll(defaults, env, ps, env.actors.Keys)
      && StableAll(contracts, inner, ps, inner.actors.Keys) && Stable(body, inner, ps, inner.actors.Keys)
    case ActorDecl(name, fields, initParams, initializer, behaviors) =>
      var inner := env.(current := Some(name));
      var init := Shadow(inner, initParams);
      && StableAll(fields, inner, ps, inner.actors.Keys) && StableAll(initializer, init, ps, init.actors.Keys)
      && StableBehaviors(behaviors, inner, ps)
    case MachineDecl(name, events, hooks) =>
      && StableAll(hooks, env.(current := Some(name)), ps, env.actors.Keys)
      && forall i :: 0 <= i < |events| ==> Clear(events[i].params, env)
    case LetDecl(name, value) => Stable(value, env, ps, env.actors.Keys) && BindingOk(name, ActorName(value, env), ps, decl)
    case WorkflowDecl(input, steps) => var inner := Shadow(env, input); StableAll(steps, inner, ps, inner.actors.Keys)
    case ModuleDecl(decls) => SettledDecls(decls, env, ps, decl)
    case OtherDecl(_) => true
  }

  predicate SettledDecls(ds: Decls, env: Env, ps: Protocols, decl: Types)
    decreases ds
  {
    ds.More? ==> Settled(ds.head, env, ps, decl) && SettledDecls(ds.tail, Extend(ds.head, env, ps), ps, decl)
  }

  // ----- every entry is checked -----

  predicate EntryOk(en: Entry, ps: Protocols, decl: Types) {
    && Annotate(en.body, en.env, ps).Some? && Stable(en.body, en.env, ps, en.env.actors.Keys)
    && Within(en.env, decl) && Clear(en.params, en.env)
    && match en.role
       case Plain => true
       case Variable(name) => BindingOk(name, ActorName(en.body, en.env), ps, decl)
       case Named(name) => name !in decl && en.env.current.None?
  }

  predicate EntriesOk(entries: seq<Entry>, ps: Protocols, decl: Types) { forall i :: 0 <= i < |entries| ==> EntryOk(entries[i], ps, decl) }

  lemma {:induction false} EntriesJoin(a: seq<Entry>, b: seq<Entry>, ps: Protocols, decl: Types)
    requires EntriesOk(a, ps, decl) && EntriesOk(b, ps, decl)
    ensures EntriesOk(a + b, ps, decl)
  {
    hide EntryOk;
  }

  lemma {:induction false} EachOk(es: Exprs, params: seq<string>, env: Env, ps: Protocols, decl: Types)
    requires AnnotateAll(es, env, ps).Some? && StableAll(es, env, ps, env.actors.Keys) && Within(env, decl) && Clear(params, env)
    ensures EntriesOk(EachOf(es, params, env), ps, decl)
    decreases es
  {
    hide Annotate, Stable, Within, Clear;
    if es.Cons? { EachOk(es.tail, params, env, ps, decl); }
  }

  lemma {:induction false} ShadowClear(env: Env, names: seq<string>, params: seq<string>, decl: Types)
    requires Within(env, decl) && forall p :: p in params ==> p in names
    ensures Within(Shadow(env, names), decl) && Clear(params, Shadow(env, names)) && Clear([], env)
  {
  }

  lemma {:induction false} BehaviorsOk(bs: Behaviors, env: Env, ps: Protocols, decl: Types)
    requires AnnotateBehaviors(bs, env, ps).Some? && StableBehaviors(bs, env, ps) && Within(env, decl)
    ensures EntriesOk(BehaviorEntries(bs, env), ps, decl)
    decreases bs
  {
    hide Annotate, Stable, Within, Clear, Shadow;
    if bs.Behavior? {
      ShadowClear(env, bs.params, bs.params, decl);
      BehaviorsOk(bs.rest, env, ps, decl);
    }
  }

  lemma {:induction false} HooksOk(events: seq<MachineEvent>, hooks: Exprs, env: Env, ps: Protocols, decl: Types)
    requires AnnotateAll(hooks, env, ps).Some? && StableAll(hooks, env, ps, env.actors.Keys) && Within(env, decl)
    requires forall i :: 0 <= i < |events| ==> Clear(events[i].params, env)
    ensures EntriesOk(HookEntries(events, hooks, env), ps, decl)
    decreases |events|
  {
    hide AnnotateAll, StableAll, Within, Clear, EachOf, EntriesOk;
    if events == [] {
      assert EntriesOk([], ps, decl) by { NoEntries(ps, decl); }
    } else {
      EachOk(hooks, events[0].params, env, ps, decl);
      HooksOk(events[1..], hooks, env, ps, decl);
      EntriesJoin(EachOf(hooks, events[0].params, env), HookEntries(events[1..], hooks, env), ps, decl);
    }
  }

  lemma {:induction false} NoEntries(ps: Protocols, decl: Types)
    ensures EntriesOk([], ps, decl)
  {
  }

  lemma {:induction false} OneEntry(en: Entry, ps: Protocols, decl: Types)
    requires EntryOk(en, ps, decl)
    ensures EntriesOk([en], ps, decl)
  {
    hide EntryOk;
  }

  lemma {:induction false} FunctionOk(d: Decl, env: Env, ps: Protocols, decl: Types)
    requires d.FunctionDecl? && AnnotateDecl(d, env, ps).Some? && Settled(d, env, ps, decl) && Within(env, decl) && env.current.None?
    ensures EntriesOk(DeclEntries(d, env, ps), ps, decl)
  {
    hide Annotate, AnnotateAll, Stable, StableAll, Within, Clear, EachOf, EntriesOk;
    var FunctionDecl(name, params, defaults, contracts, body) := d;
    var inner := Shadow(env, [name] + params);
    var en := Entry(Named(name), params, body, inner);
    ShadowClear(env, [name] + params, params, decl);
    EachOk(defaults, [], env, ps, decl);
    EachOk(contracts, params, inner, ps, decl);
    OneEntry(en, ps, decl);
    EntriesJoin(EachOf(defaults, [], env), EachOf(contracts, params, inner), ps, decl);
    EntriesJoin(EachOf(defaults, [], env) + EachOf(contracts, params, inner), [en], ps, decl);
  }

  lemma {:induction false} ActorOk(d: Decl, env: Env, ps: Protocols, decl: Types)
    requires d.ActorDecl? && AnnotateDecl(d, env, ps).Some? && Settled(d, env, ps, decl) && Within(env, decl)
    ensures EntriesOk(DeclEntries(d, env, ps), ps, decl)
  {
    hide AnnotateAll, AnnotateBehaviors, StableAll, StableBehaviors, Clear, EachOf, EntriesOk, BehaviorEntries;
    var ActorDecl(name, fields, initParams, initializer, behaviors) := d;
    var inner := env.(current := Some(name));
    var init := Shadow(inner, initParams);
    ShadowClear(inner, initParams, initParams, decl);
    EachOk(fields, [], inner, ps, decl);
    EachOk(initializer, initParams, init, ps, decl);
    BehaviorsOk(behaviors, inner, ps, decl);
    EntriesJoin(EachOf(fields, [], inner), EachOf(initializer, initParams, init), ps, decl);
    EntriesJoin(EachOf(fields, [], inner) + EachOf(initializer, initParams, init), BehaviorEntries(behaviors, inner), ps, decl);
  }

  lemma {:induction false} DeclOk(d: Decl, env: Env, ps: Protocols, decl: Types)
    requires AnnotateDecl(d, env, ps).Some? && Settled(d, env, ps, decl) && Within(env, decl) && env.current.None?
    ensures EntriesOk(DeclEntries(d, env, ps), ps, decl)
    decreases d
  {
    hide AnnotateAll, StableAll, EachOf, EntriesOk, Annotate, Stable, HookEntries, Within, Clear, Shadow;
    match d
    case FunctionDecl(_, _, _, _, _) => FunctionOk(d, env, ps, decl);
    case ActorDecl(_, _, _, _, _) => ActorOk(d, env, ps, decl);
    case MachineDecl(name, events, hooks) =>
      var inner := env.(current := Some(name));
      InnerWithin(env, inner, decl, events);
      HooksOk(events, hooks, inner, ps, decl);
    case LetDecl(name, value) =>
      ShadowClear(env, [], [], decl);
      OneEntry(Entry(Variable(name), [], value, env), ps, decl);
    case WorkflowDecl(input, steps) =>
      ShadowClear(env, input, input, decl);
      EachOk(steps, input, Shadow(env, input), ps, decl);
    case ModuleDecl(decls) => DeclsOk(decls, env, ps, decl);
    case OtherDecl(_) => NoEntries(ps, decl);
  }

  lemma {:induction false} InnerWithin(env: Env, inner: Env, decl: Types, events: seq<MachineEvent>)
    requires Within(env, decl) && inner.actors == env.actors && forall i :: 0 <= i < |events| ==> Clear(events[i].params, env)
    ensures Within(inner, decl) && forall i :: 0 <= i < |events| ==> Clear(events[i].params, inner)
  {
  }

  lemma {:induction false} ExtendOk(d: Decl, env: Env, ps: Protocols, decl: Types)
    requires AnnotateDecl(d, env, ps).Some? && Settled(d, env, ps, decl) && Within(env, decl)
    ensures Extend(AnnotateDecl(d, env, ps).value, env, ps) == Extend(d, env, ps)
    ensures Within(Extend(d, env, ps), decl) && Extend(d, env, ps).current == env.current
  {
    hide Annotate, AnnotateAll, Stable, StableAll, ActorName, AnnotateDecls, SettledDecls;
    if d.LetDecl? { AnnotateKeepsActor(d.value, env, ps, env); }
  }

  lemma {:induction false} DeclsOk(ds: Decls, env: Env, ps: Protocols, decl: Types)
    requires AnnotateDecls(ds, env, ps).Some? && SettledDecls(ds, env, ps, decl) && Within(env, decl) && env.current.None?
    ensures EntriesOk(DeclsEntries(ds, env, ps), ps, decl)
    decreases ds
  {
    hide AnnotateDecl, Settled, Extend, Within, DeclEntries, EntriesOk;
    if ds.Done? {
      NoEntries(ps, decl);
    } else {
      var next := Extend(ds.head, env, ps);
      ExtendOk(ds.head, env, ps, decl);
      DeclOk(ds.head, env, ps, decl);
      DeclsOk(ds.tail, next, ps, decl);
      EntriesJoin(DeclEntries(ds.head, env, ps), DeclsEntries(ds.tail, next, ps), ps, decl);
    }
  }

  // ----- every run is sound -----

  lemma {:induction false} ClearShadow(params: seq<string>, env: Env)
    requires Clear(params, env)
    ensures Shadow(env, params) == env
  {
    assert Shadow(env, params).actors == env.actors;
  }

  lemma {:induction false} FunctionCodeOk(en: Entry, ps: Protocols, decl: Types)
    requires EntryOk(en, ps, decl) && en.role.Named?
    ensures CodeOk(Code(en.params, en.body, None, en.env, Data(0)), ps, decl)
  {
    hide Annotate, Stable, Within, Clear;
    ClearShadow(en.params, en.env);
    assert StableCode(Code(en.params, en.body, None, en.env, Data(0)), ps);
  }

  lemma {:induction false} HoistedOk(entries: seq<Entry>, ps: Protocols, decl: Types)
    requires EntriesOk(entries, ps, decl)
    ensures StateOk(Hoisted(entries), ps, decl)
    decreases |entries|
  {
    hide CodeOk, EntryOk;
    if entries != [] {
      var front, last := entries[..|entries| - 1], entries[|entries| - 1];
      HoistedOk(front, ps, decl);
      if last.role.Named? {
        FunctionCodeOk(last, ps, decl);
        assert last.role.name !in decl by { NamedApart(last, ps, decl); }
      }
    }
  }

  lemma {:induction false} NamedApart(en: Entry, ps: Protocols, decl: Types)
    requires EntryOk(en, ps, decl) && en.role.Named?
    ensures en.role.name !in decl
  {
  }

  lemma {:induction false} EntryReady(en: Entry, act: Activation, st: State, ps: Protocols, decl: Types)
    requires EntryOk(en, ps, decl) && StateOk(st, ps, decl) && (en.env.current.Some? ==> IsActor(act.self, en.env.current.value))
    ensures Ready(en.env, act.self, st.(vars := BindAll(st.globals, en.params, act.values)), ps, decl, en.env.actors.Keys)
  {
    hide Annotate, Stable, HeapOk, TraceOk, BindAll, BindingOk;
    BindAllOff(st.globals, en.params, act.values);
  }

  lemma {:induction false} ActivateSound(en: Entry, act: Activation, st: State, ps: Protocols, host: Host, decl: Types)
    requires EntryOk(en, ps, decl) && StateOk(st, ps, decl) && (en.env.current.Some? ==> IsActor(act.self, en.env.current.value))
    ensures StateOk(Activate(en, act, st, ps, host), ps, decl)
  {
    hide Annotate, Stable, Eval, BindAll, HeapOk, TraceOk, Within, Clear, Ready, ActorName, Kept;
    EntryReady(en, act, st, ps, decl);
    var st1 := st.(vars := BindAll(st.globals, en.params, act.values));
    EvalSound(en.body, en.env, act.self, act.fuel, st1, ps, host, decl, en.env.actors.Keys);
  }

  lemma {:induction false} RunModuleSound(entries: seq<Entry>, acts: seq<Activation>, st: State, ps: Protocols, host: Host, decl: Types)
    requires EntriesOk(entries, ps, decl) && StateOk(st, ps, decl)
    requires forall i :: 0 <= i < |acts| ==> Allowed(entries, acts[i])
    ensures StateOk(RunModule(entries, acts, st, ps, host), ps, decl)
    decreases |acts|
  {
    hide EntryOk, StateOk, Activate;
    if acts != [] {
      assert Allowed(entries, acts[0]);
      ActivateSound(entries[acts[0].index], acts[0], st, ps, host, decl);
      RunModuleSound(entries, acts[1..], Activate(entries[acts[0].index], acts[0], st, ps, host), ps, host, decl);
    }
  }

  /** Every run of these declarations, for every host. */
  ghost predicate AlwaysSound(ds: Decls, ps: Protocols) {
    var entries := DeclsEntries(ds, TOP, ps);
    forall acts: seq<Activation>, host: Host {:trigger RunModule(entries, acts, Hoisted(entries), ps, host)} ::
      (forall i :: 0 <= i < |acts| ==> Allowed(entries, acts[i])) ==>
      TraceOk(RunModule(entries, acts, Hoisted(entries), ps, host).trace, ps)
  }

  lemma {:induction false} SettledIsSound(ds: Decls, ps: Protocols, decl: Types)
    requires AnnotateDecls(ds, TOP, ps).Some? && SettledDecls(ds, TOP, ps, decl)
    ensures AlwaysSound(ds, ps)
  {
    hide AnnotateDecls, SettledDecls, DeclsEntries, EntriesOk, RunModule, Hoisted, Allowed;
    var entries := DeclsEntries(ds, TOP, ps);
    DeclsOk(ds, TOP, ps, decl);
    HoistedOk(entries, ps, decl);
    forall acts: seq<Activation>, host: Host | forall i :: 0 <= i < |acts| ==> Allowed(entries, acts[i])
      ensures TraceOk(RunModule(entries, acts, Hoisted(entries), ps, host).trace, ps)
    {
      RunModuleSound(entries, acts, Hoisted(entries), ps, host, decl);
    }
  }

  /** In every run of an accepted module whose tracked variables are neither
      reassigned nor redeclared with another meaning, for every host, each
      call the pass resolved reached an actor of that type, with a behavior
      the type declares and as many arguments as it declares. */
  lemma {:induction false} AcceptedModulesAreSound(ds: Decls, infer: Expr -> Option<Type>, nilType: Type, decl: Types)
    requires AnnotateModule(ds, infer, nilType).Some? && SettledDecls(ds, TOP, Collect(ds, infer, nilType, map[]), decl)
    ensures AlwaysSound(ds, Collect(ds, infer, nilType, map[]))
  {
    hide AnnotateDecls, SettledDecls, AlwaysSound, Collect;
    SettledIsSound(ds, Collect(ds, infer, nilType, map[]), decl);
  }

  // ----- redeclared variables and captured names -----

  function SpawnOf(actor: string): Expr { Spawn(Var(actor), Nil) }

  function CallOf(x: string, behavior: string): Expr { Call(false, Var(x), behavior, Nil) }

  /** A variable, a function that sends to it, and the variable once more. */
  function Redeclared(x: string, g: string, first: string, second: string, behavior: string): Decls {
    More(LetDecl(x, SpawnOf(first)),
      More(FunctionDecl(g, [], Nil, Nil, CallOf(x, behavior)),
        More(LetDecl(x, SpawnOf(second)), Done)))
  }

  /** A variable, and a hook that sends to it in the handler of an event. */
  function Captured(x: string, machine: string, event: MachineEvent, first: string, behavior: string): Decls {
    More(LetDecl(x, SpawnOf(first)), More(MachineDecl(machine, [event], Cons(CallOf(x, behavior), Nil)), Done))
  }

  lemma {:induction false} SimpleAccepted(x: string, actor: string, current: Option<string>, first: string, behavior: string)
    requires !Qualified(first, behavior)
    ensures var ps, env := OneBehavior(first, behavior), Env(map[x := first], current);
            && Annotate(CallOf(x, behavior), env, ps).Some?
            && Annotate(SpawnOf(actor), TOP, ps) == Annotate(SpawnOf(actor), env, ps) == Some(SpawnOf(actor))
            && Bind(TOP, x, Some(first), ps) == Env(map[x := first], None) && Resolve(Var(x), env, ps) == Some(first)
  {
    hide Qualified;
    var ps, env := OneBehavior(first, behavior), Env(map[x := first], current);
    assert Resolve(Var(x), env, ps) == Some(first);
    assert AnnotateAll(Nil, env, ps) == Some(Nil) && AnnotateAll(Nil, TOP, ps) == Some(Nil);
    assert Annotate(Var(x), env, ps) == Some(Var(x));
    assert Annotate(Var(actor), env, ps) == Some(Var(actor)) && Annotate(Var(actor), TOP, ps) == Some(Var(actor));
    assert Bind(TOP, x, Some(first), ps).actors == map[x := first];
  }

  lemma {:induction false} RedeclaredAccepted(x: string, g: string, first: string, second: string, behavior: string)
    requires g != x && !Qualified(first, behavior)
    ensures var ps, env, ds := OneBehavior(first, behavior), Env(map[x := first], None), Redeclared(x, g, first, second, behavior);
            && AnnotateDecls(ds, TOP, ps).Some?
            && DeclsEntries(ds, TOP, ps) ==
               [Entry(Variable(x), [], SpawnOf(first), TOP), Entry(Named(g), [], CallOf(x, behavior), env),
                Entry(Variable(x), [], SpawnOf(second), env)]
  {
    hide Annotate, Bind, Qualified;
    var ps, env := OneBehavior(first, behavior), Env(map[x := first], None);
    SimpleAccepted(x, first, None, first, behavior);
    SimpleAccepted(x, second, None, first, behavior);
    var d0, d1, d2 := LetDecl(x, SpawnOf(first)), FunctionDecl(g, [], Nil, Nil, CallOf(x, behavior)), LetDecl(x, SpawnOf(second));
    assert ActorName(SpawnOf(first), TOP) == Some(first);
    assert Extend(d0, TOP, ps) == env && Extend(d1, env, ps) == env;
    assert Shadow(env, [g] + []).actors == env.actors;
    assert AnnotateDecls(More(d2, Done), env, ps).Some?;
    assert AnnotateDecl(d1, env, ps).Some?;
    assert AnnotateDecls(More(d1, More(d2, Done)), env, ps).Some?;
    var e0, e1, e2 := Entry(Variable(x), [], SpawnOf(first), TOP), Entry(Named(g), [], CallOf(x, behavior), env), Entry(Variable(x), [], SpawnOf(second), env);
    assert DeclEntries(d0, TOP, ps) == [e0] && DeclEntries(d1, env, ps) == [e1] && DeclEntries(d2, env, ps) == [e2];
    assert DeclsEntries(More(d2, Done), env, ps) == [e2] + [];
    assert DeclsEntries(More(d1, More(d2, Done)), env, ps) == [e1] + [e2];
  }

  lemma {:induction false} SpawnRuns(x: string, actor: string, env: Env, st: State, act: Activation, ps: Protocols, host: Host)
    ensures var en := Entry(Variable(x), [], SpawnOf(actor), env);
            var next := Activate(en, act, st, ps, host);
            && next.globals == st.globals[x := Actor(st.clock, actor)]
            && next.heap == st.heap && next.trace == st.trace && next.clock == st.clock + 1
  {
    var st1 := st.(vars := BindAll(st.globals, [], act.values));
    assert EvalAll(Nil, env, act.self, act.fuel, st1, ps, host) == Outs(Some([]), st1);
  }

  lemma {:induction false} CallRuns(en: Entry, x: string, behavior: string, target: Value, st: State, act: Activation, ps: Protocols, host: Host)
    requires !en.role.Variable? && en.body == CallOf(x, behavior)
    requires var vars := BindAll(st.globals, en.params, act.values); x in vars && vars[x] == target
    ensures Activate(en, act, st, ps, host).trace == st.trace + [Called(target, behavior, 0, Resolve(Var(x), en.env, ps))]
  {
    hide BindAll;
    var st1 := st.(vars := BindAll(st.globals, en.params, act.values));
    assert Eval(Var(x), en.env, act.self, act.fuel, st1, ps, host) == Out(Some(target), st1);
    assert EvalAll(Nil, en.env, act.self, act.fuel, st1, ps, host) == Outs(Some([]), st1);
  }

  lemma {:induction false} RedeclaredRun(x: string, g: string, first: string, second: string, behavior: string, host: Host)
    requires g != x && !Qualified(first, behavior)
    ensures var ps, ds := OneBehavior(first, behavior), Redeclared(x, g, first, second, behavior);
            var entries := DeclsEntries(ds, TOP, ps);
            var acts := [Activation(0, Data(0), [], 0), Activation(2, Data(0), [], 0), Activation(1, Data(0), [], 0)];
            && (forall i :: 0 <= i < |acts| ==> Allowed(entries, acts[i]))
            && RunModule(entries, acts, Hoisted(entries), ps, host).trace == [Called(Actor(1, second), behavior, 0, Some(first))]
  {
    hide AnnotateDecls, DeclsEntries, Activate, Qualified, Bind, Annotate;
    RedeclaredAccepted(x, g, first, second, behavior);
    SimpleAccepted(x, first, None, first, behavior);
    var ps, ds := OneBehavior(first, behavior), Redeclared(x, g, first, second, behavior);
    var entries := DeclsEntries(ds, TOP, ps);
    var acts := [Activation(0, Data(0), [], 0), Activation(2, Data(0), [], 0), Activation(1, Data(0), [], 0)];
    var st0 := Hoisted(entries);
    HoistedQuiet(entries);
    var st1 := Activate(entries[0], acts[0], st0, ps, host);
    SpawnRuns(x, first, TOP, st0, acts[0], ps, host);
    var st2 := Activate(entries[2], acts[1], st1, ps, host);
    SpawnRuns(x, second, entries[2].env, st1, acts[1], ps, host);
    var st3 := Activate(entries[1], acts[2], st2, ps, host);
    CallRuns(entries[1], x, behavior, Actor(1, second), st2, acts[2], ps, host);
    assert acts[1..] == [acts[1], acts[2]] && acts[1..][1..] == [acts[2]] && [acts[2]][1..] == [];
    assert RunModule(entries, [acts[2]], st2, ps, host) == RunModule(entries, [], st3, ps, host) == st3;
    assert RunModule(entries, acts[1..], st1, ps, host) == st3;
    assert RunModule(entries, acts, st0, ps, host) == st3;
  }

  /** An accepted module that declares a variable twice: the function between
      them is checked against the first type and may run after the second
      declaration, so its runs are sound exactly when the two types are one. */
  lemma {:induction false} RedeclarationMisleads(x: string, g: string, first: string, second: string, behavior: string)
    requires g != x && !Qualified(first, behavior)
    ensures var ps, ds := OneBehavior(first, behavior), Redeclared(x, g, first, second, behavior);
            AnnotateDecls(ds, TOP, ps).Some? && (AlwaysSound(ds, ps) <==> first == second)
  {
    hide AnnotateDecls, DeclsEntries, RunModule, Hoisted, Qualified, SettledDecls;
    var ps, ds := OneBehavior(first, behavior), Redeclared(x, g, first, second, behavior);
    RedeclaredAccepted(x, g, first, second, behavior);
    if first == second {
      RedeclaredSettled(x, g, first, behavior);
      SettledIsSound(ds, ps, map[x := first]);
    } else {
      var host := Host(_ => Data(0), _ => []);
      RedeclaredRun(x, g, first, second, behavior, host);
      CalledSound(first, second, behavior);
      var trace := [Called(Actor(1, second), behavior, 0, Some(first))];
      assert !TraceOk(trace, ps) by { assert !Sound(trace[0], ps); }
    }
  }

  lemma {:induction false} RedeclaredSettled(x: string, g: string, first: string, behavior: string)
    requires g != x && !Qualified(first, behavior)
    ensures SettledDecls(Redeclared(x, g, first, first, behavior), TOP, OneBehavior(first, behavior), map[x := first])
  {
    hide Qualified, Bind;
    var ps, env, decl := OneBehavior(first, behavior), Env(map[x := first], None), map[x := first];
    SimpleAccepted(x, first, None, first, behavior);
    var d0, d1 := LetDecl(x, SpawnOf(first)), FunctionDecl(g, [], Nil, Nil, CallOf(x, behavior));
    assert ActorName(SpawnOf(first), TOP) == Some(first) && ActorName(SpawnOf(first), env) == Some(first);
    assert Extend(d0, TOP, ps) == env && Extend(d1, env, ps) == env;
    assert SimpleStable(CallOf(x, behavior)) && SimpleStable(SpawnOf(first));
    SimplyStable(CallOf(x, behavior), Shadow(env, [g] + []), ps, Shadow(env, [g] + []).actors.Keys);
    SimplyStable(SpawnOf(first), TOP, ps, {});
    SimplyStable(SpawnOf(first), env, ps, env.actors.Keys);
    assert TOP.actors.Keys == {};
    assert Settled(d0, TOP, ps, decl) && Settled(d1, env, ps, decl) && Settled(d0, env, ps, decl);
    assert SettledDecls(More(d0, Done), env, ps, decl);
    assert SettledDecls(More(d1, More(d0, Done)), env, ps, decl);
  }

  /** A spawn or a send without arguments. */
  predicate SimpleStable(e: Expr) {
    (e.Spawn? && e.actorType.Var? && e.args.Nil?) || (e.Call? && e.actor.Var? && e.args.Nil?)
  }

  lemma {:induction false} SimplyStable(e: Expr, env: Env, ps: Protocols, fixed: set<string>)
    requires SimpleStable(e)
    ensures Stable(e, env, ps, fixed)
  {
  }

  lemma {:induction false} HoistedQuiet(entries: seq<Entry>)
    ensures Hoisted(entries).trace == [] && Hoisted(entries).clock == 0
    decreases |entries|
  {
    if entries != [] { HoistedQuiet(entries[..|entries| - 1]); }
  }

  lemma {:induction false} CapturedAccepted(x: string, machine: string, event: MachineEvent, first: string, behavior: string)
    requires !Qualified(first, behavior)
    ensures var ps, env, ds := OneBehavior(first, behavior), Env(map[x := first], Some(machine)), Captured(x, machine, event, first, behavior);
            && AnnotateDecls(ds, TOP, ps).Some?
            && DeclsEntries(ds, TOP, ps) ==
               [Entry(Variable(x), [], SpawnOf(first), TOP), Entry(Plain, event.params, CallOf(x, behavior), env)]
  {
    hide Annotate, Bind, Qualified;
    var ps, env, env0 := OneBehavior(first, behavior), Env(map[x := first], Some(machine)), Env(map[x := first], None);
    SimpleAccepted(x, first, None, first, behavior);
    SimpleAccepted(x, first, Some(machine), first, behavior);
    var hooks, events := Cons(CallOf(x, behavior), Nil), [event];
    var d0, d1 := LetDecl(x, SpawnOf(first)), MachineDecl(machine, events, hooks);
    assert ActorName(SpawnOf(first), TOP) == Some(first);
    assert Extend(d0, TOP, ps) == env0 && env0.(current := Some(machine)) == env;
    assert AnnotateAll(Nil, env, ps) == Some(Nil);
    assert AnnotateAll(hooks, env, ps).Some?;
    assert AnnotateDecls(More(d1, Done), env0, ps).Some?;
    var e0, e1 := Entry(Variable(x), [], SpawnOf(first), TOP), Entry(Plain, event.params, CallOf(x, behavior), env);
    assert events[1..] == [] && HookEntries([], hooks, env) == [];
    assert EachOf(hooks, event.params, env) == [e1] + EachOf(Nil, event.params, env);
    assert DeclEntries(d1, env0, ps) == [e1] && DeclEntries(d0, TOP, ps) == [e0];
    assert DeclsEntries(More(d1, Done), env0, ps) == [e1] + [];
  }

  lemma {:induction false} BindAllSame(vars: Vars, names: seq<string>, v: Value, x: string)
    requires x in names || (x in vars && vars[x] == v)
    ensures var bound := BindAll(vars, names, seq(|names|, _ => v)); x in bound && bound[x] == v
    decreases |names|
  {
    if names != [] {
      var values := seq(|names|, _ => v);
      assert values[1..] == seq(|names[1..]|, _ => v) && values != [];
      assert x in names ==> x == names[0] || x in names[1..];
      BindAllSame(vars[names[0] := v], names[1..], v, x);
    }
  }

  lemma {:induction false} CapturedRun(x: string, machine: string, event: MachineEvent, first: string, behavior: string, host: Host)
    requires !Qualified(first, behavior) && x in event.params
    ensures var ps, ds := OneBehavior(first, behavior), Captured(x, machine, event, first, behavior);
            var entries := DeclsEntries(ds, TOP, ps);
            var acts := [Activation(1, Actor(0, machine), seq(|event.params|, _ => Data(7)), 0)];
            && (forall i :: 0 <= i < |acts| ==> Allowed(entries, acts[i]))
            && RunModule(entries, acts, Hoisted(entries), ps, host).trace == [Called(Data(7), behavior, 0, Some(first))]
  {
    hide AnnotateDecls, DeclsEntries, Activate, Qualified, Bind, Annotate, BindAll;
    CapturedAccepted(x, machine, event, first, behavior);
    SimpleAccepted(x, first, Some(machine), first, behavior);
    var ps, ds := OneBehavior(first, behavior), Captured(x, machine, event, first, behavior);
    var entries := DeclsEntries(ds, TOP, ps);
    var acts := [Activation(1, Actor(0, machine), seq(|event.params|, _ => Data(7)), 0)];
    var st0 := Hoisted(entries);
    HoistedQuiet(entries);
    BindAllSame(st0.globals, event.params, Data(7), x);
    CallRuns(entries[1], x, behavior, Data(7), st0, acts[0], ps, host);
    assert acts[1..] == [];
    var st1 := Activate(entries[1], acts[0], st0, ps, host);
    assert RunModule(entries, acts, st0, ps, host) == RunModule(entries, [], st1, ps, host) == st1;
  }

  lemma {:induction false} CapturedSettled(x: string, machine: string, event: MachineEvent, first: string, behavior: string)
    requires !Qualified(first, behavior) && x !in event.params
    ensures SettledDecls(Captured(x, machine, event, first, behavior), TOP, OneBehavior(first, behavior), map[x := first])
  {
    hide Qualified, Bind;
    var ps, env, decl := OneBehavior(first, behavior), Env(map[x := first], None), map[x := first];
    SimpleAccepted(x, first, None, first, behavior);
    var d0, d1 := LetDecl(x, SpawnOf(first)), MachineDecl(machine, [event], Cons(CallOf(x, behavior), Nil));
    assert ActorName(SpawnOf(first), TOP) == Some(first);
    assert Extend(d0, TOP, ps) == env;
    SimplyStable(CallOf(x, behavior), env.(current := Some(machine)), ps, env.actors.Keys);
    SimplyStable(SpawnOf(first), TOP, ps, {});
    assert TOP.actors.Keys == {};
    assert Clear(event.params, env);
    assert Settled(d0, TOP, ps, decl) && Settled(d1, env, ps, decl);
    assert SettledDecls(More(d1, Done), env, ps, decl);
  }

  /** An accepted module whose hook is checked against the module's variable:
      its runs are sound exactly when no parameter of the event has the name
      of the variable, for then the hook sends to the argument instead. */
  lemma {:induction false} HookParameterMisleads(x: string, machine: string, event: MachineEvent, first: string, behavior: string)
    requires !Qualified(first, behavior)
    ensures var ps, ds := OneBehavior(first, behavior), Captured(x, machine, event, first, behavior);
            AnnotateDecls(ds, TOP, ps).Some? && (AlwaysSound(ds, ps) <==> x !in event.params)
  {
    hide AnnotateDecls, DeclsEntries, RunModule, Hoisted, Qualified, SettledDecls;
    var ps, ds := OneBehavior(first, behavior), Captured(x, machine, event, first, behavior);
    CapturedAccepted(x, machine, event, first, behavior);
    if x !in event.params {
      CapturedSettled(x, machine, event, first, behavior);
      SettledIsSound(ds, ps, map[x := first]);
    } else {
      var host := Host(_ => Data(0), _ => []);
      CapturedRun(x, machine, event, first, behavior, host);
      var trace := [Called(Data(7), behavior, 0, Some(first))];
      assert !TraceOk(trace, ps) by { assert !Sound(trace[0], ps); }
    }
  }
}
