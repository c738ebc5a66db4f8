/** The expressions the actor-protocol pass distinguishes, and the pass itself
    (src/actor_protocol.rs, src/ast.rs). Forms that only recurse into their
    parts share one constructor. */
module ActorSyntax {
  import opened Options

  type Type = nat

  datatype Exprs = Nil | Cons(head: Expr, tail: Exprs)

  /** Match and receive arms, handlers and loop bodies: names bound, an
      optional guard and a body. */
  datatype Arms = NoArms | Arm(names: seq<string>, guard: Exprs, body: Expr, rest: Arms)

  datatype Expr =
    | Lit(n: nat)
    | Var(name: string)
    | SelfRef
    | Prim(op: nat, kids: Exprs)
    | Lambda(params: seq<string>, body: Expr)
    | App(func: Expr, args: Exprs)
    | Let(name: string, value: Expr, body: Expr)
    | LetRec(name: string, params: seq<string>, value: Expr, body: Expr)
    | Branches(heads: Exprs, arms: Arms)
    | Hide(names: seq<string>, body: Expr)
    | Seal(names: seq<string>, body: Expr)
    | Assign(target: Expr, value: Expr)
    | Spawn(actorType: Expr, args: Exprs)
    | Grain(grain: string, key: Expr)
    | TypeAnnotate(expr: Expr, ty: Type)
    | CapAnnotate(expr: Expr)
    | Call(ask: bool, actor: Expr, behavior: string, args: Exprs)

  function Length(es: Exprs): nat { if es.Nil? then 0 else 1 + Length(es.tail) }

  // ----- protocols and scopes -----

  datatype Sig = Sig(params: seq<Option<Type>>, ret: Option<Type>)

  datatype Protocol = Protocol(behaviors: map<string, Sig>, ambiguous: bool)

  type Protocols = map<string, Protocol>

  predicate Known(ps: Protocols, name: string) { name in ps && !ps[name].ambiguous }

  /** Variables known to hold an actor of a declared type, and the type of the
      enclosing actor. */
  datatype Env = Env(actors: map<string, string>, current: Option<string>)

  function Shadow(env: Env, names: seq<string>): Env { env.(actors := map x | x in env.actors && x !in names :: env.actors[x]) }

  function Keep(env: Env, names: seq<string>): Env { env.(actors := map x | x in env.actors && x in names :: env.actors[x]) }

  /** Every binder hides the outer name; the new name is tracked when its value
      is an actor of a known, unambiguous type. */
  function Bind(env: Env, name: string, actor: Option<string>, ps: Protocols): Env {
    var hidden := Shadow(env, [name]);
    if actor.Some? && Known(ps, actor.value) then hidden.(actors := hidden.actors[name := actor.value]) else hidden
  }

  function ActorName(e: Expr, env: Env): Option<string> {
    match e
    case Var(name) => if name in env.actors then Some(env.actors[name]) else None
    case SelfRef => env.current
    case Spawn(actorType, _) => if actorType.Var? then Some(actorType.name) else None
    case Grain(grain, _) => Some(grain)
    case CapAnnotate(inner) => ActorName(inner, env)
    case TypeAnnotate(inner, _) => ActorName(inner, env)
    case _ => None
  }

  /** The declared type a call is checked against, if there is one. */
  function Resolve(actor: Expr, env: Env, ps: Protocols): Option<string> {
    var name := ActorName(actor, env);
    if name.Some? && Known(ps, name.value) then name else None
  }

  // ----- behavior names -----

  function Prefix(actor: string): string { actor + ['.'] }

  predicate Qualified(actor: string, behavior: string) {
    |Prefix(actor)| <= |behavior| && behavior[..|Prefix(actor)|] == Prefix(actor)
  }

  /** The declared behavior a possibly qualified name refers to. */
  function Key(actor: string, behavior: string): string {
    if Qualified(actor, behavior) then behavior[|Prefix(actor)|..] else behavior
  }

  function Qualify(actor: string, behavior: string, p: Protocol): string {
    if Qualified(actor, behavior) then behavior
    else if behavior in p.behaviors then Prefix(actor) + behavior
    else behavior
  }

  predicate CallOk(actor: string, behavior: string, nargs: nat, ps: Protocols)
    requires actor in ps
  {
    var key := Key(actor, behavior);
    key in ps[actor].behaviors && nargs == |ps[actor].behaviors[key].params|
  }

  // ----- the pass -----

  function Wrap(args: Exprs, params: seq<Option<Type>>): Exprs
    requires Length(args) == |params|
  {
    if args.Nil? then Nil
    else Cons(if params[0].Some? then TypeAnnotate(args.head, params[0].value) else args.head, Wrap(args.tail, params[1..]))
  }

  function AnnotateCall(ask: bool, actor: Expr, behavior: string, args: Exprs, env: Env, ps: Protocols): Option<Expr> {
    match Resolve(actor, env, ps)
    case None => Some(Call(ask, actor, behavior, args))
    case Some(name) =>
      if !CallOk(name, behavior, Length(args), ps) then None
      else
        var sig := ps[name].behaviors[Key(name, behavior)];
        var call := Call(ask, actor, Qualify(name, behavior, ps[name]), Wrap(args, sig.params));
        Some(if ask && sig.ret.Some? then TypeAnnotate(call, sig.ret.value) else call)
  }

  /** The annotated expression, or none when a call breaks its protocol. */
  function Annotate(e: Expr, env: Env, ps: Protocols): Option<Expr>
    decreases e
  {
    match e
    case Lit(_) => Some(e)
    case Var(_) => Some(e)
    case SelfRef => Some(e)
    case Prim(op, kids) =>
      var k := AnnotateAll(kids, env, ps);
      if k.Some? then Some(Prim(op, k.value)) else None
    case Lambda(params, body) =>
      var b := Annotate(body, Shadow(env, params), ps);
      if b.Some? then Some(Lambda(params, b.value)) else None
    case App(func, args) =>
      var f, a := Annotate(func, env, ps), AnnotateAll(args, env, ps);
      if f.Some? && a.Some? then Some(App(f.value, a.value)) else None
    case Let(name, value, body) =>
      var v := Annotate(value, env, ps);
      if v.None? then None
      else
        var b := Annotate(body, Bind(env, name, ActorName(v.value, env), ps), ps);
        if b.Some? then Some(Let(name, v.value, b.value)) else None
    case LetRec(name, params, value, body) =>
      var inner := Shadow(env, [name] + params);
      var v, b := Annotate(value, inner, ps), Annotate(body, inner, ps);
      if v.Some? && b.Some? then Some(LetRec(name, params, v.value, b.value)) else None
    case Branches(heads, arms) =>
      var h, a := AnnotateAll(heads, env, ps), AnnotateArms(arms, env, ps);
      if h.Some? && a.Some? then Some(Branches(h.value, a.value)) else None
    case Hide(names, body) =>
      var b := Annotate(body, Shadow(env, names), ps);
      if b.Some? then Some(Hide(names, b.value)) else None
    case Seal(names, body) =>
      var b := Annotate(body, Keep(env, names), ps);
      if b.Some? then Some(Seal(names, b.value)) else None
    case Assign(target, value) =>
      var t, v := Annotate(target, env, ps), Annotate(value, env, ps);
      if t.Some? && v.Some? then Some(Assign(t.value, v.value)) else None
    case Spawn(actorType, args) =>
      var t, a := Annotate(actorType, env, ps), AnnotateAll(args, env, ps);
      if t.Some? && a.Some? then Some(Spawn(t.value, a.value)) else None
    case Grain(grain, key) =>
      var k := Annotate(key, env, ps);
      if k.Some? then Some(Grain(grain, k.value)) else None
    case TypeAnnotate(inner, ty) =>
      var i := Annotate(inner, env, ps);
      if i.Some? then Some(TypeAnnotate(i.value, ty)) else None
    case CapAnnotate(inner) =>
      var i := Annotate(inner, env, ps);
      if i.Some? then Some(CapAnnotate(i.value)) else None
    case Call(ask, actor, behavior, args) =>
      var t, a := Annotate(actor, env, ps), AnnotateAll(args, env, ps);
      if t.Some? && a.Some? then AnnotateCall(ask, t.value, behavior, a.value, env, ps) else None
  }

  function AnnotateAll(es: Exprs, env: Env, ps: Protocols): (r: Option<Exprs>)
    ensures r.Some? ==> Length(r.value) == Length(es)
    decreases es
  {
    if es.Nil? then Some(Nil)
    else
      var h, t := Annotate(es.head, env, ps), AnnotateAll(es.tail, env, ps);
      if h.Some? && t.Some? then Some(Cons(h.value, t.value)) else None
  }

  function AnnotateArms(arms: Arms, env: Env, ps: Protocols): Option<Arms>
    decreases arms
  {
    if arms.NoArms? then Some(NoArms)
    else
      var inner := Shadow(env, arms.names);
      var g, b, r := AnnotateAll(arms.guard, inner, ps), Annotate(arms.body, inner, ps), AnnotateArms(arms.rest, env, ps);
      if g.Some? && b.Some? && r.Some? then Some(Arm(arms.names, g.value, b.value, r.value)) else None
  }
}
