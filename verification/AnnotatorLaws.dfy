/** The actor-protocol pass changes nothing but annotations and qualifiers, and
    accepts its own output (src/actor_protocol.rs). */
module AnnotatorLaws {
  import opened Options
  import opened ActorSyntax

  // ----- erasure -----

  /** The part of a behavior name after its last dot. */
  function BaseName(behavior: string): string {
    if '.' !in behavior then behavior else BaseName(behavior[1..])
  }

  /** Drops type annotations; with `names`, drops behavior qualifiers too. */
  function Erase(e: Expr, names: bool): Expr
    decreases e
  {
    match e
    case Lit(_) => e
    case Var(_) => e
    case SelfRef => e
    case Prim(op, kids) => Prim(op, EraseAll(kids, names))
    case Lambda(params, body) => Lambda(params, Erase(body, names))
    case App(func, args) => App(Erase(func, names), EraseAll(args, names))
    case Let(name, value, body) => Let(name, Erase(value, names), Erase(body, names))
    case LetRec(name, params, value, body) => LetRec(name, params, Erase(value, names), Erase(body, names))
    case Branches(heads, arms) => Branches(EraseAll(heads, names), EraseArms(arms, names))
    case Hide(hidden, body) => Hide(hidden, Erase(body, names))
    case Seal(kept, body) => Seal(kept, Erase(body, names))
    case Assign(target, value) => Assign(Erase(target, names), Erase(value, names))
    case Spawn(actorType, args) => Spawn(Erase(actorType, names), EraseAll(args, names))
    case Grain(grain, key) => Grain(grain, Erase(key, names))
    case TypeAnnotate(inner, _) => Erase(inner, names)
    case CapAnnotate(inner) => CapAnnotate(Erase(inner, names))
    case Call(ask, actor, behavior, args) =>
      Call(ask, Erase(actor, names), if names then BaseName(behavior) else behavior, EraseAll(args, names))
  }

  function EraseAll(es: Exprs, names: bool): Exprs
    decreases es
  {
    if es.Nil? then Nil else Cons(Erase(es.head, names), EraseAll(es.tail, names))
  }

  function EraseArms(arms: Arms, names: bool): Arms
    decreases arms
  {
    if arms.NoArms? then NoArms
    else Arm(arms.names, EraseAll(arms.guard, names), Erase(arms.body, names), EraseArms(arms.rest, names))
  }

  lemma {:induction false} BaseOfQualified(actor: string, behavior: string)
    ensures BaseName(Prefix(actor) + behavior) == BaseName(behavior)
    decreases |actor|
  {
    var s := Prefix(actor) + behavior;
    assert s[|actor|] == '.';
    if actor == [] {
      assert s[1..] == behavior;
    } else {
      assert s[1..] == Prefix(actor[1..]) + behavior;
      BaseOfQualified(actor[1..], behavior);
    }
  }

  lemma {:induction false} EraseWrap(args: Exprs, params: seq<Option<Type>>, names: bool)
    requires Length(args) == |params|
    ensures EraseAll(Wrap(args, params), names) == EraseAll(args, names)
    decreases args
  {
    if args.Cons? { EraseWrap(args.tail, params[1..], names); }
  }

  // ----- transparency -----

  /** The name itself, or the name behind a qualifier. */
  predicate MayQualify(behavior: string, after: string) {
    after == behavior ||
    (|behavior| < |after| && after[|after| - |behavior| - 1] == '.' && after[|after| - |behavior|..] == behavior)
  }

  /** `a` is `e` with nothing changed but type annotations added around the
      arguments of calls and around asks, and behaviors qualified. */
  predicate Adds(e: Expr, a: Expr)
    decreases e
  {
    match e
    case Lit(_) => a == e
    case Var(_) => a == e
    case SelfRef => a == e
    case Prim(op, kids) => a.Prim? && a.op == op && AddsAll(kids, a.kids)
    case Lambda(params, body) => a.Lambda? && a.params == params && Adds(body, a.body)
    case App(func, args) => a.App? && Adds(func, a.func) && AddsAll(args, a.args)
    case Let(name, value, body) => a.Let? && a.name == name && Adds(value, a.value) && Adds(body, a.body)
    case LetRec(name, params, value, body) =>
      a.LetRec? && a.name == name && a.params == params && Adds(value, a.value) && Adds(body, a.body)
    case Branches(heads, arms) => a.Branches? && AddsAll(heads, a.heads) && AddsArms(arms, a.arms)
    case Hide(names, body) => a.Hide? && a.names == names && Adds(body, a.body)
    case Seal(names, body) => a.Seal? && a.names == names && Adds(body, a.body)
    case Assign(target, value) => a.Assign? && Adds(target, a.target) && Adds(value, a.value)
    case Spawn(actorType, args) => a.Spawn? && Adds(actorType, a.actorType) && AddsAll(args, a.args)
    case Grain(grain, key) => a.Grain? && a.grain == grain && Adds(key, a.key)
    case TypeAnnotate(inner, ty) => a.TypeAnnotate? && a.ty == ty && Adds(inner, a.expr)
    case CapAnnotate(inner) => a.CapAnnotate? && Adds(inner, a.expr)
    case Call(ask, actor, behavior, args) =>
      var c := if ask && a.TypeAnnotate? then a.expr else a;
      c.Call? && c.ask == ask && Adds(actor, c.actor) && MayQualify(behavior, c.behavior) && AddsArgs(args, c.args)
  }

  predicate AddsAll(es: Exprs, a: Exprs)
    decreases es
  {
    if es.Nil? then a.Nil? else a.Cons? && Adds(es.head, a.head) && AddsAll(es.tail, a.tail)
  }

  /** Arguments may be wrapped in one more annotation each. */
  predicate AddsArgs(es: Exprs, a: Exprs)
    decreases es
  {
    if es.Nil? then a.Nil?
    else a.Cons? && (Adds(es.head, a.head) || (a.head.TypeAnnotate? && Adds(es.head, a.head.expr))) && AddsArgs(es.tail, a.tail)
  }

  predicate AddsArms(arms: Arms, a: Arms)
    decreases arms
  {
    if arms.NoArms? then a.NoArms?
    else a.Arm? && a.names == arms.names && AddsAll(arms.guard, a.guard) && Adds(arms.body, a.body) && AddsArms(arms.rest, a.rest)
  }

  lemma {:induction false} WrapAdds(es: Exprs, args: Exprs, params: seq<Option<Type>>)
    requires AddsAll(es, args) && Length(args) == |params|
    ensures AddsArgs(es, Wrap(args, params))
    decreases es
  {
    hide Adds;
    if es.Cons? { WrapAdds(es.tail, args.tail, params[1..]); }
  }

  lemma {:induction false} AllAddsArgs(es: Exprs, args: Exprs)
    requires AddsAll(es, args)
    ensures AddsArgs(es, args)
    decreases es
  {
    hide Adds;
    if es.Cons? { AllAddsArgs(es.tail, args.tail); }
  }

  lemma {:induction false} QualifyMay(actor: string, behavior: string, p: Protocol)
    ensures MayQualify(behavior, Qualify(actor, behavior, p))
  {
    var q := Prefix(actor) + behavior;
    assert q[|actor|] == '.' && q[|actor| + 1..] == behavior;
  }

  lemma {:induction false} CallAdds(e: Expr, actor: Expr, args: Exprs, env: Env, ps: Protocols)
    requires e.Call? && Adds(e.actor, actor) && AddsAll(e.args, args)
    requires AnnotateCall(e.ask, actor, e.behavior, args, env, ps).Some?
    ensures Adds(e, AnnotateCall(e.ask, actor, e.behavior, args, env, ps).value)
  {
    hide ActorName, Qualify, Wrap, AddsArgs, MayQualify;
    var r := Resolve(actor, env, ps);
    if r.Some? {
      var sig := ps[r.value].behaviors[Key(r.value, e.behavior)];
      WrapAdds(e.args, args, sig.params);
      QualifyMay(r.value, e.behavior, ps[r.value]);
    } else {
      AllAddsArgs(e.args, args);
      assert MayQualify(e.behavior, e.behavior) by { SameName(e.behavior); }
    }
  }

  lemma {:induction false} SameName(behavior: string)
    ensures MayQualify(behavior, behavior)
  {
  }

  predicate Binds(e: Expr) { e.Lambda? || e.Let? || e.LetRec? || e.Branches? || e.Hide? || e.Seal? }

  /** The pass only adds annotations and qualifiers. */
  lemma {:induction false} AnnotateTransparent(e: Expr, env: Env, ps: Protocols)
    requires Annotate(e, env, ps).Some?
    ensures Adds(e, Annotate(e, env, ps).value)
    decreases e, 1
  {
    hide AnnotateCall, ActorName, Bind, Shadow, Keep, MayQualify;
    if Binds(e) {
      BinderTransparent(e, env, ps);
    } else {
      match e
      case Prim(_, kids) => AnnotateAllTransparent(kids, env, ps);
      case App(func, args) => AnnotateTransparent(func, env, ps); AnnotateAllTransparent(args, env, ps);
      case Assign(target, value) => AnnotateTransparent(target, env, ps); AnnotateTransparent(value, env, ps);
      case Spawn(actorType, args) => AnnotateTransparent(actorType, env, ps); AnnotateAllTransparent(args, env, ps);
      case Grain(_, key) => AnnotateTransparent(key, env, ps);
      case TypeAnnotate(inner, _) => AnnotateTransparent(inner, env, ps);
      case CapAnnotate(inner) => AnnotateTransparent(inner, env, ps);
      case Call(ask, actor, behavior, args) =>
        AnnotateTransparent(actor, env, ps);
        AnnotateAllTransparent(args, env, ps);
        CallAdds(e, Annotate(actor, env, ps).value, AnnotateAll(args, env, ps).value, env, ps);
      case _ =>
    }
  }

  lemma {:induction false} BinderTransparent(e: Expr, env: Env, ps: Protocols)
    requires Binds(e) && Annotate(e, env, ps).Some?
    ensures Adds(e, Annotate(e, env, ps).value)
    decreases e, 0
  {
    hide AnnotateCall, ActorName, Bind, Shadow, Keep, MayQualify;
    match e
    case Lambda(params, body) => AnnotateTransparent(body, Shadow(env, params), ps);
    case Let(name, value, body) =>
      AnnotateTransparent(value, env, ps);
      AnnotateTransparent(body, Bind(env, name, ActorName(Annotate(value, env, ps).value, env), ps), ps);
    case LetRec(name, params, value, body) =>
      AnnotateTransparent(value, Shadow(env, [name] + params), ps);
      AnnotateTransparent(body, Shadow(env, [name] + params), ps);
    case Branches(heads, arms) => AnnotateAllTransparent(heads, env, ps); AnnotateArmsTransparent(arms, env, ps);
    case Hide(names, body) => AnnotateTransparent(body, Shadow(env, names), ps);
    case Seal(names, body) => AnnotateTransparent(body, Keep(env, names), ps);
    case _ =>
  }

  lemma {:induction false} AnnotateAllTransparent(es: Exprs, env: Env, ps: Protocols)
    requires AnnotateAll(es, env, ps).Some?
    ensures AddsAll(es, AnnotateAll(es, env, ps).value)
    decreases es
  {
    hide Annotate, Adds;
    if es.Cons? {
      AnnotateTransparent(es.head, env, ps);
      AnnotateAllTransparent(es.tail, env, ps);
    }
  }

  lemma {:induction false} AnnotateArmsTransparent(arms: Arms, env: Env, ps: Protocols)
    requires AnnotateArms(arms, env, ps).Some?
    ensures AddsArms(arms, AnnotateArms(arms, env, ps).value)
    decreases arms
  {
    hide Annotate, Adds, Shadow;
    if arms.Arm? {
      AnnotateAllTransparent(arms.guard, Shadow(env, arms.names), ps);
      AnnotateTransparent(arms.body, Shadow(env, arms.names), ps);
      AnnotateArmsTransparent(arms.rest, env, ps);
    }
  }

  // ----- erasing what was added -----

  lemma {:induction false} BaseOfMayQualify(behavior: string, after: string)
    requires MayQualify(behavior, after)
    ensures BaseName(after) == BaseName(behavior)
  {
    if after != behavior {
      var n := |after| - |behavior| - 1;
      assert after == Prefix(after[..n]) + behavior;
      BaseOfQualified(after[..n], behavior);
    }
  }

  /** Erasing annotations and qualifiers on both sides leaves no difference. */
  lemma {:induction false} AddsErases(e: Expr, a: Expr)
    requires Adds(e, a)
    ensures Erase(a, true) == Erase(e, true)
    decreases e, 1
  {
    hide MayQualify, BaseName;
    match e
    case Prim(_, kids) => AddsAllErases(kids, a.kids);
    case Lambda(_, body) => AddsErases(body, a.body);
    case App(func, args) => AddsErases(func, a.func); AddsAllErases(args, a.args);
    case Let(_, value, body) => AddsErases(value, a.value); AddsErases(body, a.body);
    case LetRec(_, _, value, body) => AddsErases(value, a.value); AddsErases(body, a.body);
    case Branches(heads, arms) => AddsAllErases(heads, a.heads); AddsArmsErases(arms, a.arms);
    case Hide(_, body) => AddsErases(body, a.body);
    case Seal(_, body) => AddsErases(body, a.body);
    case Assign(target, value) => AddsErases(target, a.target); AddsErases(value, a.value);
    case Spawn(actorType, args) => AddsErases(actorType, a.actorType); AddsAllErases(args, a.args);
    case Grain(_, key) => AddsErases(key, a.key);
    case TypeAnnotate(inner, _) => AddsErases(inner, a.expr);
    case CapAnnotate(inner) => AddsErases(inner, a.expr);
    case Call(ask, actor, behavior, args) =>
      var c := if ask && a.TypeAnnotate? then a.expr else a;
      AddsErases(actor, c.actor);
      AddsArgsErases(args, c.args);
      BaseOfMayQualify(behavior, c.behavior);
    case _ =>
  }

  lemma {:induction false} AddsAllErases(es: Exprs, a: Exprs)
    requires AddsAll(es, a)
    ensures EraseAll(a, true) == EraseAll(es, true)
    decreases es
  {
    hide Adds, Erase;
    if es.Cons? { AddsErases(es.head, a.head); AddsAllErases(es.tail, a.tail); }
  }

  lemma {:induction false} AddsArgsErases(es: Exprs, a: Exprs)
    requires AddsArgs(es, a)
    ensures EraseAll(a, true) == EraseAll(es, true)
    decreases es
  {
    hide Adds;
    if es.Cons? {
      if Adds(es.head, a.head) { AddsErases(es.head, a.head); } else { AddsErases(es.head, a.head.expr); }
      AddsArgsErases(es.tail, a.tail);
    }
  }

  lemma {:induction false} AddsArmsErases(arms: Arms, a: Arms)
    requires AddsArms(arms, a)
    ensures EraseArms(a, true) == EraseArms(arms, true)
    decreases arms
  {
    hide Adds, Erase;
    if arms.Arm? {
      AddsAllErases(arms.guard, a.guard);
      AddsErases(arms.body, a.body);
      AddsArmsErases(arms.rest, a.rest);
    }
  }

  // ----- the second pass -----

  /** Same actors, behaviors and arities; types may differ. */
  ghost predicate SameShape(ps: Protocols, qs: Protocols) {
    && ps.Keys == qs.Keys
    && forall n :: n in ps ==>
         && ps[n].ambiguous == qs[n].ambiguous && ps[n].behaviors.Keys == qs[n].behaviors.Keys
         && forall b :: b in ps[n].behaviors ==> |ps[n].behaviors[b].params| == |qs[n].behaviors[b].params|
  }

  lemma {:induction false} AnnotateKeepsActor(e: Expr, env: Env, ps: Protocols, scope: Env)
    requires Annotate(e, env, ps).Some?
    ensures ActorName(Annotate(e, env, ps).value, scope) == ActorName(e, scope)
    ensures Annotate(e, env, ps).value.Var? <==> e.Var?
    decreases e
  {
    hide Bind, Shadow, Keep, Resolve;
    match e
    case CapAnnotate(inner) => AnnotateKeepsActor(inner, env, ps, scope);
    case TypeAnnotate(inner, _) => AnnotateKeepsActor(inner, env, ps, scope);
    case Spawn(actorType, _) => AnnotateKeepsActor(actorType, env, ps, scope);
    case _ =>
  }

  lemma {:induction false} QualifyOnce(actor: string, behavior: string, p: Protocol)
    requires Key(actor, behavior) in p.behaviors
    ensures Qualify(actor, behavior, p) == Prefix(actor) + Key(actor, behavior)
    ensures Qualified(actor, Qualify(actor, behavior, p)) && Key(actor, Qualify(actor, behavior, p)) == Key(actor, behavior)
  {
    var q := Qualify(actor, behavior, p);
    if Qualified(actor, behavior) {
      assert behavior == behavior[..|Prefix(actor)|] + behavior[|Prefix(actor)|..];
    }
    assert q[..|Prefix(actor)|] == Prefix(actor) && q[|Prefix(actor)|..] == Key(actor, behavior);
  }

  /** What the second pass does to a call the first one accepted. */
  lemma {:induction false} CallTwice(ask: bool, a1: Expr, a2: Expr, behavior: string, args1: Exprs, args2: Exprs, env: Env, ps: Protocols, qs: Protocols)
    requires SameShape(ps, qs) && ActorName(a2, env) == ActorName(a1, env) && AnnotateCall(ask, a1, behavior, args1, env, ps).Some?
    requires var r := Resolve(a1, env, ps);
             r.Some? ==> Length(args2) == Length(args1)
    ensures var r := Resolve(a1, env, ps);
            var b := if r.Some? then Qualify(r.value, behavior, ps[r.value]) else behavior;
            && AnnotateCall(ask, a2, b, args2, env, qs).Some?
            && Erase(AnnotateCall(ask, a2, b, args2, env, qs).value, false) == Call(ask, Erase(a2, false), b, EraseAll(args2, false))
  {
    hide ActorName, Erase, EraseAll;
    var r := Resolve(a1, env, ps);
    assert Resolve(a2, env, qs) == r;
    if r.Some? {
      var key := Key(r.value, behavior);
      QualifyOnce(r.value, behavior, ps[r.value]);
      var sig := qs[r.value].behaviors[key];
      EraseWrap(args2, sig.params, false);
      EraseCallShape(ask, a2, Qualify(r.value, behavior, ps[r.value]), Wrap(args2, sig.params), sig.ret);
    } else {
      EraseCallShape(ask, a2, behavior, args2, None);
    }
  }

  lemma {:induction false} EraseCallShape(ask: bool, actor: Expr, behavior: string, args: Exprs, ret: Option<Type>)
    ensures Erase(Call(ask, actor, behavior, args), false) == Call(ask, Erase(actor, false), behavior, EraseAll(args, false))
    ensures ret.Some? ==> Erase(TypeAnnotate(Call(ask, actor, behavior, args), ret.value), false) ==
                          Call(ask, Erase(actor, false), behavior, EraseAll(args, false))
  {
  }

  lemma {:induction false} AnnotateWrapped(args: Exprs, params: seq<Option<Type>>, env: Env, qs: Protocols)
    requires Length(args) == |params| && AnnotateAll(args, env, qs).Some?
    ensures AnnotateAll(Wrap(args, params), env, qs) == Some(Wrap(AnnotateAll(args, env, qs).value, params))
    decreases args
  {
    hide AnnotateCall, ActorName, Bind, Shadow, Keep;
    if args.Cons? { AnnotateWrapped(args.tail, params[1..], env, qs); }
  }

  /** The second pass, with protocols of the same shape, accepts the output of
      the first and leaves every name in it alone. */
  lemma {:induction false} AcceptsOwnOutput(e: Expr, env: Env, ps: Protocols, qs: Protocols)
    requires SameShape(ps, qs) && Annotate(e, env, ps).Some?
    ensures var a := Annotate(e, env, ps).value;
            Annotate(a, env, qs).Some? && Erase(Annotate(a, env, qs).value, false) == Erase(a, false)
    decreases e, 1
  {
    hide SameShape, AnnotateCall, ActorName, Bind, Shadow, Keep;
    if Binds(e) {
      BinderAcceptsOwnOutput(e, env, ps, qs);
    } else if e.Call? {
      CallAcceptsOwnOutput(e, env, ps, qs);
    } else {
      match e
      case Prim(_, kids) => AllAcceptOwnOutput(kids, env, ps, qs);
      case App(func, args) => AcceptsOwnOutput(func, env, ps, qs); AllAcceptOwnOutput(args, env, ps, qs);
      case Assign(target, value) => AcceptsOwnOutput(target, env, ps, qs); AcceptsOwnOutput(value, env, ps, qs);
      case Spawn(actorType, args) => AcceptsOwnOutput(actorType, env, ps, qs); AllAcceptOwnOutput(args, env, ps, qs);
      case Grain(_, key) => AcceptsOwnOutput(key, env, ps, qs);
      case TypeAnnotate(inner, _) => AcceptsOwnOutput(inner, env, ps, qs);
      case CapAnnotate(inner) => AcceptsOwnOutput(inner, env, ps, qs);
      case _ =>
    }
  }

  lemma {:induction false} BinderAcceptsOwnOutput(e: Expr, env: Env, ps: Protocols, qs: Protocols)
    requires Binds(e) && SameShape(ps, qs) && Annotate(e, env, ps).Some?
    ensures var a := Annotate(e, env, ps).value;
            Annotate(a, env, qs).Some? && Erase(Annotate(a, env, qs).value, false) == Erase(a, false)
    decreases e, 0, 1
  {
    hide SameShape, AnnotateCall, ActorName, Bind, Shadow, Keep;
    match e
    case Lambda(params, body) => AcceptsOwnOutput(body, Shadow(env, params), ps, qs);
    case Let(name, value, body) => LetAcceptsOwnOutput(e, env, ps, qs);
    case LetRec(name, params, value, body) =>
      AcceptsOwnOutput(value, Shadow(env, [name] + params), ps, qs);
      AcceptsOwnOutput(body, Shadow(env, [name] + params), ps, qs);
    case Branches(heads, arms) => AllAcceptOwnOutput(heads, env, ps, qs); ArmsAcceptOwnOutput(arms, env, ps, qs);
    case Hide(names, body) => AcceptsOwnOutput(body, Shadow(env, names), ps, qs);
    case Seal(names, body) => AcceptsOwnOutput(body, Keep(env, names), ps, qs);
    case _ =>
  }

  lemma {:induction false} BindSameShape(env: Env, name: string, actor: Option<string>, ps: Protocols, qs: Protocols)
    requires SameShape(ps, qs)
    ensures Bind(env, name, actor, qs) == Bind(env, name, actor, ps)
  {
  }

  lemma {:induction false} LetAcceptsOwnOutput(e: Expr, env: Env, ps: Protocols, qs: Protocols)
    requires e.Let? && SameShape(ps, qs) && Annotate(e, env, ps).Some?
    ensures var a := Annotate(e, env, ps).value;
            Annotate(a, env, qs).Some? && Erase(Annotate(a, env, qs).value, false) == Erase(a, false)
    decreases e, 0, 0
  {
    hide SameShape, ActorName, Bind;
    var v1 := Annotate(e.value, env, ps).value;
    AcceptsOwnOutput(e.value, env, ps, qs);
    AnnotateKeepsActor(v1, env, qs, env);
    var scope := Bind(env, e.name, ActorName(v1, env), ps);
    BindSameShape(env, e.name, ActorName(v1, env), ps, qs);
    AcceptsOwnOutput(e.body, scope, ps, qs);
  }

  lemma {:induction false} CallAcceptsOwnOutput(e: Expr, env: Env, ps: Protocols, qs: Protocols)
    requires e.Call? && SameShape(ps, qs) && Annotate(e, env, ps).Some?
    ensures var a := Annotate(e, env, ps).value;
            Annotate(a, env, qs).Some? && Erase(Annotate(a, env, qs).value, false) == Erase(a, false)
    decreases e, 0
  {
    hide SameShape, ActorName, Wrap, Qualify;
    var Call(ask, actor, behavior, args) := e;
    var actor1, args1 := Annotate(actor, env, ps).value, AnnotateAll(args, env, ps).value;
    AcceptsOwnOutput(actor, env, ps, qs);
    AllAcceptOwnOutput(args, env, ps, qs);
    AnnotateKeepsActor(actor1, env, qs, env);
    var actor2, args2 := Annotate(actor1, env, qs).value, AnnotateAll(args1, env, qs).value;
    var r := Resolve(actor1, env, ps);
    if r.Some? {
      var sig := ps[r.value].behaviors[Key(r.value, behavior)];
      AnnotateWrapped(args1, sig.params, env, qs);
      WrapLength(args2, sig.params);
      EraseWrap(args2, sig.params, false);
      EraseWrap(args1, sig.params, false);
      CallTwice(ask, actor1, actor2, behavior, args1, Wrap(args2, sig.params), env, ps, qs);
    } else {
      CallTwice(ask, actor1, actor2, behavior, args1, args2, env, ps, qs);
    }
  }

  lemma {:induction false} WrapLength(args: Exprs, params: seq<Option<Type>>)
    requires Length(args) == |params|
    ensures Length(Wrap(args, params)) == Length(args)
    decreases args
  {
    if args.Cons? { WrapLength(args.tail, params[1..]); }
  }

  lemma {:induction false} AllAcceptOwnOutput(es: Exprs, env: Env, ps: Protocols, qs: Protocols)
    requires SameShape(ps, qs) && AnnotateAll(es, env, ps).Some?
    ensures var a := AnnotateAll(es, env, ps).value;
            AnnotateAll(a, env, qs).Some? && EraseAll(AnnotateAll(a, env, qs).value, false) == EraseAll(a, false)
    decreases es
  {
    hide SameShape, Annotate, Erase;
    if es.Cons? {
      AcceptsOwnOutput(es.head, env, ps, qs);
      AllAcceptOwnOutput(es.tail, env, ps, qs);
    }
  }

  lemma {:induction false} ArmsAcceptOwnOutput(arms: Arms, env: Env, ps: Protocols, qs: Protocols)
    requires SameShape(ps, qs) && AnnotateArms(arms, env, ps).Some?
    ensures var a := AnnotateArms(arms, env, ps).value;
            AnnotateArms(a, env, qs).Some? && EraseArms(AnnotateArms(a, env, qs).value, false) == EraseArms(a, false)
    decreases arms
  {
    hide SameShape, Annotate, Erase, Shadow;
    if arms.Arm? {
      AllAcceptOwnOutput(arms.guard, Shadow(env, arms.names), ps, qs);
      AcceptsOwnOutput(arms.body, Shadow(env, arms.names), ps, qs);
      ArmsAcceptOwnOutput(arms.rest, env, ps, qs);
    }
  }
}
