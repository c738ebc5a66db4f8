/** The actor-protocol pass over whole modules: collecting protocols, threading
    the scope through declarations (src/actor_protocol.rs). */
module ActorModules {
  import opened Options
  import opened ActorSyntax
  import opened AnnotatorLaws

  datatype Behaviors =
    | NoBehaviors
    | Behavior(name: string, params: seq<string>, types: seq<Option<Type>>, ret: Option<Type>, body: Expr, rest: Behaviors)

  datatype Decls = Done | More(head: Decl, tail: Decls)

  datatype MachineEvent = MachineEvent(name: string, params: seq<string>, types: seq<Option<Type>>)

  /** Signals are declared like variables; an actor has at most one
      initializer; declarations of other kinds are not looked into. */
  datatype Decl =
    | FunctionDecl(name: string, params: seq<string>, defaults: Exprs, contracts: Exprs, body: Expr)
    | ActorDecl(name: string, fields: Exprs, initParams: seq<string>, initializer: Exprs, behaviors: Behaviors)
    | MachineDecl(name: string, events: seq<MachineEvent>, hooks: Exprs)
    | LetDecl(name: string, value: Expr)
    | WorkflowDecl(input: seq<string>, steps: Exprs)
    | ModuleDecl(decls: Decls)
    | OtherDecl(tag: nat)

  // ----- protocols -----

  /** A behavior's declared return type, or else what inference finds. */
  function FromBehaviors(bs: Behaviors, infer: Expr -> Option<Type>, acc: map<string, Sig>): map<string, Sig>
    decreases bs
  {
    if bs.NoBehaviors? then acc
    else FromBehaviors(bs.rest, infer, acc[bs.name := Sig(bs.types, if bs.ret.Some? then bs.ret else infer(bs.body))])
  }

  /** Every event handler of a desugared state machine ends in nil. */
  function FromEvents(events: seq<MachineEvent>, nilType: Type): map<string, Sig> {
    if events == [] then map[]
    else
      var last := events[|events| - 1];
      FromEvents(events[..|events| - 1], nilType)[last.name := Sig(last.types, Some(nilType))]
  }

  /** A second declaration of a name makes it ambiguous. */
  function Insert(ps: Protocols, name: string, behaviors: map<string, Sig>): Protocols {
    if name in ps then ps[name := ps[name].(ambiguous := true)] else ps[name := Protocol(behaviors, false)]
  }

  function Collect(ds: Decls, infer: Expr -> Option<Type>, nilType: Type, ps: Protocols): Protocols
    decreases ds
  {
    if ds.Done? then ps
    else Collect(ds.tail, infer, nilType, CollectOne(ds.head, infer, nilType, ps))
  }

  function CollectOne(d: Decl, infer: Expr -> Option<Type>, nilType: Type, ps: Protocols): Protocols
    decreases d
  {
    match d
    case ActorDecl(name, _, _, _, behaviors) => Insert(ps, name, FromBehaviors(behaviors, infer, map[]))
    case MachineDecl(name, events, _) => Insert(ps, name, FromEvents(events, nilType))
    case ModuleDecl(decls) => Collect(decls, infer, nilType, ps)
    case _ => ps
  }

  // ----- annotation -----

  function AnnotateBehaviors(bs: Behaviors, env: Env, ps: Protocols): Option<Behaviors>
    decreases bs
  {
    if bs.NoBehaviors? then Some(bs)
    else
      var b, r := Annotate(bs.body, Shadow(env, bs.params), ps), AnnotateBehaviors(bs.rest, env, ps);
      if b.Some? && r.Some? then Some(bs.(body := b.value, rest := r.value)) else None
  }

  function AnnotateDecl(d: Decl, env: Env, ps: Protocols): Option<Decl>
    decreases d
  {
    match d
    case FunctionDecl(name, params, defaults, contracts, body) =>
      var inner := Shadow(env, [name] + params);
      var f, c, b := AnnotateAll(defaults, env, ps), AnnotateAll(contracts, inner, ps), Annotate(body, inner, ps);
      if f.Some? && c.Some? && b.Some? then Some(FunctionDecl(name, params, f.value, c.value, b.value)) else None
    case ActorDecl(name, fields, initParams, initializer, behaviors) =>
      var inner := env.(current := Some(name));
      var f, i := AnnotateAll(fields, inner, ps), AnnotateAll(initializer, Shadow(inner, initParams), ps);
      var b := AnnotateBehaviors(behaviors, inner, ps);
      if f.Some? && i.Some? && b.Some? then Some(ActorDecl(name, f.value, initParams, i.value, b.value)) else None
    case MachineDecl(name, events, hooks) =>
      var h := AnnotateAll(hooks, env.(current := Some(name)), ps);
      if h.Some? then Some(MachineDecl(name, events, h.value)) else None
    case LetDecl(name, value) =>
      var v := Annotate(value, env, ps);
      if v.Some? then Some(LetDecl(name, v.value)) else None
    case WorkflowDecl(input, steps) =>
      var w := AnnotateAll(steps, Shadow(env, input), ps);
      if w.Some? then Some(WorkflowDecl(input, w.value)) else None
    case ModuleDecl(decls) =>
      var ds := AnnotateDecls(decls, env, ps);
      if ds.Some? then Some(ModuleDecl(ds.value)) else None
    case OtherDecl(_) => Some(d)
  }

  /** A module-level binding is in scope of the declarations after it. */
  function Extend(d: Decl, env: Env, ps: Protocols): Env {
    if d.LetDecl? then Bind(env, d.name, ActorName(d.value, env), ps) else env
  }

  function AnnotateDecls(ds: Decls, env: Env, ps: Protocols): Option<Decls>
    decreases ds
  {
    if ds.Done? then Some(Done)
    else
      var h := AnnotateDecl(ds.head, env, ps);
      if h.None? then None
      else
        var t := AnnotateDecls(ds.tail, Extend(h.value, env, ps), ps);
        if t.Some? then Some(More(h.value, t.value)) else None
  }

  const TOP := Env(map[], None)

  function AnnotateModule(ds: Decls, infer: Expr -> Option<Type>, nilType: Type): Option<Decls> {
    AnnotateDecls(ds, TOP, Collect(ds, infer, nilType, map[]))
  }

  // ----- erasure -----

  function EraseBehaviors(bs: Behaviors, names: bool): Behaviors
    decreases bs
  {
    if bs.NoBehaviors? then bs else bs.(body := Erase(bs.body, names), rest := EraseBehaviors(bs.rest, names))
  }

  function EraseDecl(d: Decl, names: bool): Decl
    decreases d
  {
    match d
    case FunctionDecl(name, params, defaults, contracts, body) =>
      FunctionDecl(name, params, EraseAll(defaults, names), EraseAll(contracts, names), Erase(body, names))
    case ActorDecl(name, fields, initParams, initializer, behaviors) =>
      ActorDecl(name, EraseAll(fields, names), initParams, EraseAll(initializer, names), EraseBehaviors(behaviors, names))
    case MachineDecl(name, events, hooks) => MachineDecl(name, events, EraseAll(hooks, names))
    case LetDecl(name, value) => LetDecl(name, Erase(value, names))
    case WorkflowDecl(input, steps) => WorkflowDecl(input, EraseAll(steps, names))
    case ModuleDecl(decls) => ModuleDecl(EraseDecls(decls, names))
    case OtherDecl(_) => d
  }

  function EraseDecls(ds: Decls, names: bool): Decls
    decreases ds
  {
    if ds.Done? then Done else More(EraseDecl(ds.head, names), EraseDecls(ds.tail, names))
  }

  // ----- transparency -----

  predicate AddsBehaviors(bs: Behaviors, a: Behaviors)
    decreases bs
  {
    if bs.NoBehaviors? then a == bs
    else
      && a.Behavior? && a.(body := bs.body, rest := bs.rest) == bs
      && Adds(bs.body, a.body) && AddsBehaviors(bs.rest, a.rest)
  }

  predicate AddsDecl(d: Decl, a: Decl)
    decreases d
  {
    match d
    case FunctionDecl(name, params, defaults, contracts, body) =>
      && a.FunctionDecl? && a.name == name && a.params == params
      && AddsAll(defaults, a.defaults) && AddsAll(contracts, a.contracts) && Adds(body, a.body)
    case ActorDecl(name, fields, initParams, initializer, behaviors) =>
      && a.ActorDecl? && a.name == name && a.initParams == initParams
      && AddsAll(fields, a.fields) && AddsAll(initializer, a.initializer) && AddsBehaviors(behaviors, a.behaviors)
    case MachineDecl(name, events, hooks) => a.MachineDecl? && a.name == name && a.events == events && AddsAll(hooks, a.hooks)
    case LetDecl(name, value) => a.LetDecl? && a.name == name && Adds(value, a.value)
    case WorkflowDecl(input, steps) => a.WorkflowDecl? && a.input == input && AddsAll(steps, a.steps)
    case ModuleDecl(decls) => a.ModuleDecl? && AddsDecls(decls, a.decls)
    case OtherDecl(_) => a == d
  }

  predicate AddsDecls(ds: Decls, a: Decls)
    decreases ds
  {
    if ds.Done? then a.Done? else a.More? && AddsDecl(ds.head, a.head) && AddsDecls(ds.tail, a.tail)
  }

  lemma {:induction false} BehaviorsTransparent(bs: Behaviors, env: Env, ps: Protocols)
    requires AnnotateBehaviors(bs, env, ps).Some?
    ensures AddsBehaviors(bs, AnnotateBehaviors(bs, env, ps).value)
    decreases bs
  {
    hide Annotate, Adds, Shadow;
    if bs.Behavior? {
      AnnotateTransparent(bs.body, Shadow(env, bs.params), ps);
      BehaviorsTransparent(bs.rest, env, ps);
    }
  }

  lemma {:induction false} DeclTransparent(d: Decl, env: Env, ps: Protocols)
    requires AnnotateDecl(d, env, ps).Some?
    ensures AddsDecl(d, AnnotateDecl(d, env, ps).value)
    decreases d
  {
    hide Annotate, AnnotateAll, Adds, AddsAll, Shadow;
    match d
    case FunctionDecl(name, params, defaults, contracts, body) =>
      AnnotateAllTransparent(defaults, env, ps);
      AnnotateAllTransparent(contracts, Shadow(env, [name] + params), ps);
      AnnotateTransparent(body, Shadow(env, [name] + params), ps);
    case ActorDecl(name, fields, initParams, initializer, behaviors) =>
      var inner := env.(current := Some(name));
      AnnotateAllTransparent(fields, inner, ps);
      AnnotateAllTransparent(initializer, Shadow(inner, initParams), ps);
      BehaviorsTransparent(behaviors, inner, ps);
    case MachineDecl(name, _, hooks) => AnnotateAllTransparent(hooks, env.(current := Some(name)), ps);
    case LetDecl(_, value) => AnnotateTransparent(value, env, ps);
    case WorkflowDecl(input, steps) => AnnotateAllTransparent(steps, Shadow(env, input), ps);
    case ModuleDecl(decls) => DeclsTransparent(decls, env, ps);
    case OtherDecl(_) =>
  }

  lemma {:induction false} DeclsTransparent(ds: Decls, env: Env, ps: Protocols)
    requires AnnotateDecls(ds, env, ps).Some?
    ensures AddsDecls(ds, AnnotateDecls(ds, env, ps).value)
    decreases ds
  {
    hide AnnotateDecl, AddsDecl, Extend;
    if ds.More? {
      DeclTransparent(ds.head, env, ps);
      DeclsTransparent(ds.tail, Extend(AnnotateDecl(ds.head, env, ps).value, env, ps), ps);
    }
  }

  lemma {:induction false} AddsBehaviorsErase(bs: Behaviors, a: Behaviors)
    requires AddsBehaviors(bs, a)
    ensures EraseBehaviors(a, true) == EraseBehaviors(bs, true)
    decreases bs
  {
    hide Adds, Erase;
    if bs.Behavior? {
      AddsErases(bs.body, a.body);
      AddsBehaviorsErase(bs.rest, a.rest);
      assert a.name == bs.name && a.params == bs.params && a.types == bs.types && a.ret == bs.ret;
    }
  }

  lemma {:induction false} AddsDeclErases(d: Decl, a: Decl)
    requires AddsDecl(d, a)
    ensures EraseDecl(a, true) == EraseDecl(d, true)
    decreases d
  {
    hide Adds, AddsAll, Erase, EraseAll;
    match d
    case FunctionDecl(_, _, defaults, contracts, body) =>
      AddsAllErases(defaults, a.defaults);
      AddsAllErases(contracts, a.contracts);
      AddsErases(body, a.body);
    case ActorDecl(_, fields, _, initializer, behaviors) =>
      AddsAllErases(fields, a.fields);
      AddsAllErases(initializer, a.initializer);
      AddsBehaviorsErase(behaviors, a.behaviors);
    case MachineDecl(_, _, hooks) => AddsAllErases(hooks, a.hooks);
    case LetDecl(_, value) => AddsErases(value, a.value);
    case WorkflowDecl(_, steps) => AddsAllErases(steps, a.steps);
    case ModuleDecl(decls) => AddsDeclsErase(decls, a.decls);
    case OtherDecl(_) =>
  }

  lemma {:induction false} AddsDeclsErase(ds: Decls, a: Decls)
    requires AddsDecls(ds, a)
    ensures EraseDecls(a, true) == EraseDecls(ds, true)
    decreases ds
  {
    hide AddsDecl, EraseDecl;
    if ds.More? {
      AddsDeclErases(ds.head, a.head);
      AddsDeclsErase(ds.tail, a.tail);
    }
  }

  /** An accepted module comes out with nothing changed but type annotations
      and behavior qualifiers added; erasing those from both sides leaves no
      difference. */
  lemma {:induction false} ModuleTransparent(ds: Decls, infer: Expr -> Option<Type>, nilType: Type)
    requires AnnotateModule(ds, infer, nilType).Some?
    ensures AddsDecls(ds, AnnotateModule(ds, infer, nilType).value)
    ensures EraseDecls(AnnotateModule(ds, infer, nilType).value, true) == EraseDecls(ds, true)
  {
    hide AddsDecls, EraseDecls, AnnotateDecls;
    DeclsTransparent(ds, TOP, Collect(ds, infer, nilType, map[]));
    AddsDeclsErase(ds, AnnotateModule(ds, infer, nilType).value);
  }

  // ----- the second pass -----

  ghost predicate SameSigs(a: map<string, Sig>, b: map<string, Sig>) {
    a.Keys == b.Keys && forall k :: k in a ==> |a[k].params| == |b[k].params|
  }

  lemma {:induction false} BehaviorsShape(bs: Behaviors, cs: Behaviors, infer: Expr -> Option<Type>, a: map<string, Sig>, b: map<string, Sig>)
    requires SameSigs(a, b) && SameInterface(bs, cs)
    ensures SameSigs(FromBehaviors(bs, infer, a), FromBehaviors(cs, infer, b))
    decreases bs
  {
    if bs.Behavior? {
      BehaviorsShape(bs.rest, cs.rest, infer,
        a[bs.name := Sig(bs.types, if bs.ret.Some? then bs.ret else infer(bs.body))],
        b[cs.name := Sig(cs.types, if cs.ret.Some? then cs.ret else infer(cs.body))]);
    }
  }

  /** Everything of a behavior list but its bodies. */
  predicate SameInterface(bs: Behaviors, cs: Behaviors) {
    match (bs, cs)
    case (NoBehaviors, NoBehaviors) => true
    case (Behavior(n, p, t, r, _, rest), Behavior(m, q, u, s, _, tail)) => n == m && p == q && t == u && r == s && SameInterface(rest, tail)
    case _ => false
  }

  lemma {:induction false} AnnotatedInterface(bs: Behaviors, env: Env, ps: Protocols)
    requires AnnotateBehaviors(bs, env, ps).Some?
    ensures SameInterface(bs, AnnotateBehaviors(bs, env, ps).value)
    decreases bs
  {
    hide Annotate, Shadow;
    if bs.Behavior? { AnnotatedInterface(bs.rest, env, ps); }
  }

  lemma {:induction false} InsertShape(ps: Protocols, qs: Protocols, name: string, a: map<string, Sig>, b: map<string, Sig>)
    requires SameShape(ps, qs) && SameSigs(a, b)
    ensures SameShape(Insert(ps, name, a), Insert(qs, name, b))
  {
  }

  lemma {:induction false} CollectOneShape(d: Decl, infer: Expr -> Option<Type>, nilType: Type, ps: Protocols, qs: Protocols, env: Env, rs: Protocols)
    requires SameShape(ps, qs) && AnnotateDecl(d, env, rs).Some?
    ensures SameShape(CollectOne(d, infer, nilType, ps), CollectOne(AnnotateDecl(d, env, rs).value, infer, nilType, qs))
    decreases d
  {
    hide Annotate, AnnotateAll, Shadow, SameShape, Insert, FromBehaviors, FromEvents, SameInterface;
    match d
    case ActorDecl(name, _, _, _, behaviors) =>
      var after := AnnotateBehaviors(behaviors, env.(current := Some(name)), rs).value;
      AnnotatedInterface(behaviors, env.(current := Some(name)), rs);
      BehaviorsShape(behaviors, after, infer, map[], map[]);
      InsertShape(ps, qs, name, FromBehaviors(behaviors, infer, map[]), FromBehaviors(after, infer, map[]));
    case MachineDecl(name, events, _) =>
      InsertShape(ps, qs, name, FromEvents(events, nilType), FromEvents(events, nilType));
    case ModuleDecl(decls) => CollectShape(decls, infer, nilType, ps, qs, env, rs);
    case _ =>
  }

  lemma {:induction false} CollectShape(ds: Decls, infer: Expr -> Option<Type>, nilType: Type, ps: Protocols, qs: Protocols, env: Env, rs: Protocols)
    requires SameShape(ps, qs) && AnnotateDecls(ds, env, rs).Some?
    ensures SameShape(Collect(ds, infer, nilType, ps), Collect(AnnotateDecls(ds, env, rs).value, infer, nilType, qs))
    decreases ds
  {
    hide AnnotateDecl, SameShape, CollectOne, Extend;
    if ds.More? {
      var h := AnnotateDecl(ds.head, env, rs).value;
      CollectOneShape(ds.head, infer, nilType, ps, qs, env, rs);
      CollectShape(ds.tail, infer, nilType, CollectOne(ds.head, infer, nilType, ps), CollectOne(h, infer, nilType, qs), Extend(h, env, rs), rs);
    }
  }

  lemma {:induction false} BehaviorsAgain(bs: Behaviors, env: Env, ps: Protocols, qs: Protocols)
    requires SameShape(ps, qs) && AnnotateBehaviors(bs, env, ps).Some?
    ensures var a := AnnotateBehaviors(bs, env, ps).value;
            AnnotateBehaviors(a, env, qs).Some? && EraseBehaviors(AnnotateBehaviors(a, env, qs).value, false) == EraseBehaviors(a, false)
    decreases bs
  {
    hide Annotate, Erase, Shadow, SameShape;
    if bs.Behavior? {
      AcceptsOwnOutput(bs.body, Shadow(env, bs.params), ps, qs);
      BehaviorsAgain(bs.rest, env, ps, qs);
    }
  }

  lemma {:induction false} DeclAgain(d: Decl, env: Env, ps: Protocols, qs: Protocols)
    requires SameShape(ps, qs) && AnnotateDecl(d, env, ps).Some?
    ensures var a := AnnotateDecl(d, env, ps).value;
            && AnnotateDecl(a, env, qs).Some? && EraseDecl(AnnotateDecl(a, env, qs).value, false) == EraseDecl(a, false)
            && Extend(AnnotateDecl(a, env, qs).value, env, qs) == Extend(a, env, ps)
    decreases d
  {
    hide Annotate, AnnotateAll, Erase, EraseAll, Shadow, SameShape, Bind, ActorName;
    match d
    case FunctionDecl(name, params, defaults, contracts, body) =>
      AllAcceptOwnOutput(defaults, env, ps, qs);
      AllAcceptOwnOutput(contracts, Shadow(env, [name] + params), ps, qs);
      AcceptsOwnOutput(body, Shadow(env, [name] + params), ps, qs);
    case ActorDecl(name, fields, initParams, initializer, behaviors) =>
      AllAcceptOwnOutput(fields, env.(current := Some(name)), ps, qs);
      AllAcceptOwnOutput(initializer, Shadow(env.(current := Some(name)), initParams), ps, qs);
      BehaviorsAgain(behaviors, env.(current := Some(name)), ps, qs);
    case MachineDecl(name, _, hooks) => AllAcceptOwnOutput(hooks, env.(current := Some(name)), ps, qs);
    case LetDecl(name, value) =>
      var v := Annotate(value, env, ps).value;
      AcceptsOwnOutput(value, env, ps, qs);
      AnnotateKeepsActor(v, env, qs, env);
      BindSameShape(env, name, ActorName(v, env), ps, qs);
    case WorkflowDecl(input, steps) => AllAcceptOwnOutput(steps, Shadow(env, input), ps, qs);
    case ModuleDecl(decls) => DeclsAgain(decls, env, ps, qs);
    case OtherDecl(_) =>
  }

  lemma {:induction false} DeclsAgain(ds: Decls, env: Env, ps: Protocols, qs: Protocols)
    requires SameShape(ps, qs) && AnnotateDecls(ds, env, ps).Some?
    ensures var a := AnnotateDecls(ds, env, ps).value;
            AnnotateDecls(a, env, qs).Some? && EraseDecls(AnnotateDecls(a, env, qs).value, false) == EraseDecls(a, false)
    decreases ds
  {
    hide AnnotateDecl, EraseDecl, Extend, SameShape;
    if ds.More? {
      DeclAgain(ds.head, env, ps, qs);
      DeclsAgain(ds.tail, Extend(AnnotateDecl(ds.head, env, ps).value, env, ps), ps, qs);
    }
  }

  /** The pass accepts its own output, collecting protocols afresh from it, and
      leaves every qualified name as it was, whatever return types inference
      finds the second time. */
  lemma {:induction false} ModuleAcceptsOwnOutput(ds: Decls, infer: Expr -> Option<Type>, nilType: Type)
    requires AnnotateModule(ds, infer, nilType).Some?
    ensures var a := AnnotateModule(ds, infer, nilType).value;
            && AnnotateModule(a, infer, nilType).Some?
            && EraseDecls(AnnotateModule(a, infer, nilType).value, false) == EraseDecls(a, false)
  {
    hide AnnotateDecls, EraseDecls, Collect;
    var ps := Collect(ds, infer, nilType, map[]);
    var a := AnnotateModule(ds, infer, nilType).value;
    CollectShape(ds, infer, nilType, map[], map[], TOP, ps);
    DeclsAgain(ds, TOP, ps, Collect(a, infer, nilType, map[]));
  }
}
