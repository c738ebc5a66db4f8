/** The concurrency IR (src/cir.rs) and its meaning when locals survive a suspend.

    A run talks to the outside world through a `Host`.  Every host answer is a
    function of the history of events so far, so quantifying over all hosts
    covers every order and content of replies.  Fuel counts control transfers
    (jumps, branches and suspends); comparing two runs at every fuel compares
    all their finite and infinite behaviours. */
module Cir {
  import opened Options
  /** A raw 64-bit word, as carried by a Wasm local. */
  type Val = int

  const TAG_NIL: Val := 0x7FF8_0000_0000_0000
  const TAG_UNIT: Val := 0x7FF9_0000_0000_0000
  const TAG_BOOL: Val := 0x7FFA_0000_0000_0000
  const TAG_INT: Val := 0x7FFB_0000_0000_0000
  const PAYLOAD_SIZE: int := 0x1_0000_0000_0000

  function TagInt(n: int): Val { TAG_INT + n % PAYLOAD_SIZE }
  function TagBool(b: bool): Val { TAG_BOOL + if b then 1 else 0 }

  /** The meaning of an operator, shared by MIR and CIR. */
  datatype Operator = OAdd | OSub | OMul | ODiv | OMod | OEq | ONe | OLt | OLe | OGt | OGe | OAnd | OOr | ONeg | ONot

  datatype BinaryOp = Add | Sub | Mul | Div | Mod | Eq | Neq | Lt | Lte | Gt | Gte | And | Or
  datatype UnaryOp = Neg | Not

  function BinaryMeaning(op: BinaryOp): Operator {
    match op
    case Add => OAdd case Sub => OSub case Mul => OMul case Div => ODiv case Mod => OMod
    case Eq => OEq case Neq => ONe case Lt => OLt case Lte => OLe case Gt => OGt case Gte => OGe
    case And => OAnd case Or => OOr
  }

  function UnaryMeaning(op: UnaryOp): Operator {
    match op case Neg => ONeg case Not => ONot
  }

  datatype EffectKind =
    | ActorSend | MailboxDequeue | SignalWait | LlmAsk | PerformAsync
    | HostEffect(moduleName: string, name: string)

  datatype CirExpr =
    | Var(v: nat)
    | ConstI64(n: int)
    | ConstF64(f: real)
    | ConstBool(b: bool)
    | ConstNil
    | ConstUnit
    | ConstString(s: string)
    | BinaryExpr(op: BinaryOp, lhs: CirExpr, rhs: CirExpr)
    | UnaryExpr(uop: UnaryOp, operand: CirExpr)
    | Call(funcIdx: nat, args: seq<CirExpr>)
    | ArrayLen(arr: CirExpr)
    | ArrayLoad(array: CirExpr, idx: CirExpr)

  datatype CirStmt =
    | Assign(dst: nat, src: CirExpr)
    | Emit(effect: EffectKind, args: seq<CirExpr>)
    | SaveFrame(vars: seq<nat>, offsets: seq<nat>, framePtr: nat)
    | RestoreFrame(vars: seq<nat>, offsets: seq<nat>, framePtr: nat)

  datatype CirTerminator =
    | Return(result: Option<CirExpr>)
    | Jump(target: nat)
    | Branch(cond: CirExpr, thenBlock: nat, elseBlock: nat)
    | SuspendAndYield(effect: EffectKind, args: seq<CirExpr>, resumeBlock: nat, resumeVar: nat, liveVars: seq<nat>)
    | Resume(e: CirExpr)

  datatype CirBlock = CirBlock(id: nat, stmts: seq<CirStmt>, terminator: CirTerminator)

  // ----- runs -----

  datatype Event =
    | Called(funcIdx: nat, args: seq<Val>)
    | Emitted(effect: EffectKind, args: seq<Val>)
    | Suspended(effect: EffectKind, args: seq<Val>)

  type Trace = seq<Event>

  /** Everything a run may learn from outside. */
  datatype Host = Host(
    apply: (Operator, seq<Val>) -> Val,
    floatBits: real -> Val,
    intern: string -> Val,
    arrayLen: (Trace, Val) -> Val,
    arrayLoad: (Trace, Val, Val) -> Val,
    reply: Trace -> Val)

  type Store = map<nat, Val>

  /** An unwritten Wasm local holds zero. */
  function Get(st: Store, v: nat): Val { if v in st then st[v] else 0 }

  function EvalExpr(h: Host, e: CirExpr, st: Store, tr: Trace): (r: (Val, Trace))
    decreases e
  {
    match e
    case Var(v) => (Get(st, v), tr)
    case ConstI64(n) => (n, tr)
    case ConstF64(f) => (h.floatBits(f), tr)
    case ConstBool(b) => (TagBool(b), tr)
    case ConstNil => (TAG_NIL, tr)
    case ConstUnit => (TAG_UNIT, tr)
    case ConstString(s) => (h.intern(s), tr)
    case BinaryExpr(op, lhs, rhs) =>
      var (a, tr1) := EvalExpr(h, lhs, st, tr);
      var (b, tr2) := EvalExpr(h, rhs, st, tr1);
      (h.apply(BinaryMeaning(op), [a, b]), tr2)
    case UnaryExpr(op, operand) =>
      var (a, tr1) := EvalExpr(h, operand, st, tr);
      (h.apply(UnaryMeaning(op), [a]), tr1)
    case Call(f, args) =>
      var (vs, tr1) := EvalExprs(h, args, st, tr);
      var tr2 := tr1 + [Called(f, vs)];
      (h.reply(tr2), tr2)
    case ArrayLen(arr) =>
      var (a, tr1) := EvalExpr(h, arr, st, tr);
      (h.arrayLen(tr1, a), tr1)
    case ArrayLoad(arr, idx) =>
      var (a, tr1) := EvalExpr(h, arr, st, tr);
      var (i, tr2) := EvalExpr(h, idx, st, tr1);
      (h.arrayLoad(tr2, a, i), tr2)
  }

  function EvalExprs(h: Host, es: seq<CirExpr>, st: Store, tr: Trace): (r: (seq<Val>, Trace))
    decreases es
  {
    if es == [] then ([], tr)
    else
      var (v, tr1) := EvalExpr(h, es[0], st, tr);
      var (vs, tr2) := EvalExprs(h, es[1..], st, tr1);
      ([v] + vs, tr2)
  }

  datatype Outcome =
    | Finished(trace: Trace, result: Val)
    | Resumed(trace: Trace, result: Val)
    | Stuck(trace: Trace)
    | Cut(trace: Trace)

  /** One statement; frame statements mean nothing while locals survive. */
  function ExecStmt(h: Host, s: CirStmt, st: Store, tr: Trace): (r: (Store, Trace)) {
    match s
    case Assign(dst, src) =>
      var (v, tr1) := EvalExpr(h, src, st, tr);
      (st[dst := v], tr1)
    case Emit(effect, args) =>
      var (vs, tr1) := EvalExprs(h, args, st, tr);
      (st, tr1 + [Emitted(effect, vs)])
    case SaveFrame(_, _, _) => (st, tr)
    case RestoreFrame(_, _, _) => (st, tr)
  }

  /** Runs `stmts` then `term`, with all locals preserved across suspends. */
  function Run(blocks: seq<CirBlock>, h: Host, stmts: seq<CirStmt>, term: CirTerminator, st: Store, tr: Trace, fuel: nat): (o: Outcome)
    decreases fuel, 1 + |stmts|
  {
    if stmts != [] then
      var (st1, tr1) := ExecStmt(h, stmts[0], st, tr);
      Run(blocks, h, stmts[1..], term, st1, tr1, fuel)
    else
      match term
      case Return(None) => Finished(tr, TAG_UNIT)
      case Return(Some(e)) =>
        var (v, tr1) := EvalExpr(h, e, st, tr);
        Finished(tr1, v)
      case Resume(e) =>
        var (v, tr1) := EvalExpr(h, e, st, tr);
        Resumed(tr1, v)
      case Jump(t) => Enter(blocks, h, t, st, tr, fuel)
      case Branch(c, t, f) =>
        var (v, tr1) := EvalExpr(h, c, st, tr);
        Enter(blocks, h, if v != TagBool(false) then t else f, st, tr1, fuel)
      case SuspendAndYield(effect, args, resume, dst, _) =>
        var (vs, tr1) := EvalExprs(h, args, st, tr);
        var tr2 := tr1 + [Suspended(effect, vs)];
        Enter(blocks, h, resume, st[dst := h.reply(tr2)], tr2, fuel)
  }

  function Enter(blocks: seq<CirBlock>, h: Host, t: nat, st: Store, tr: Trace, fuel: nat): (o: Outcome)
    decreases fuel, 0
  {
    if fuel == 0 then Cut(tr)
    else if t >= |blocks| then Stuck(tr)
    else Run(blocks, h, blocks[t].stmts, blocks[t].terminator, st, tr, fuel - 1)
  }

  // ----- evaluation reads nothing but the used variables -----

  /** Variables referenced by an expression (src/cir_analysis.rs, `expr_uses`). */
  function ExprUses(e: CirExpr): (vs: set<nat>)
    decreases e
  {
    match e
    case Var(v) => {v}
    case BinaryExpr(_, lhs, rhs) => ExprUses(lhs) + ExprUses(rhs)
    case UnaryExpr(_, operand) => ExprUses(operand)
    case Call(_, args) => ExprsUses(args)
    case ArrayLen(arr) => ExprUses(arr)
    case ArrayLoad(arr, idx) => ExprUses(arr) + ExprUses(idx)
    case _ => {}
  }

  function ExprsUses(es: seq<CirExpr>): (vs: set<nat>)
    decreases es
  {
    if es == [] then {} else ExprUses(es[0]) + ExprsUses(es[1..])
  }

  ghost predicate Agree(a: Store, b: Store, vs: set<nat>) {
    forall v :: v in vs ==> Get(a, v) == Get(b, v)
  }

  lemma {:induction false} AgreeUpdate(a: Store, b: Store, vs: set<nat>, dst: nat, v: Val)
    requires Agree(a, b, vs - {dst})
    ensures Agree(a[dst := v], b[dst := v], vs)
  {
    forall x | x in vs ensures Get(a[dst := v], x) == Get(b[dst := v], x) {
      if x != dst { assert x in vs - {dst}; assert Get(a, x) == Get(b, x); }
    }
  }

  lemma {:induction false} EvalExprAgree(h: Host, e: CirExpr, a: Store, b: Store, tr: Trace)
    requires Agree(a, b, ExprUses(e))
    ensures EvalExpr(h, e, a, tr) == EvalExpr(h, e, b, tr)
    decreases e
  {
    match e
    case BinaryExpr(_, lhs, rhs) =>
      EvalExprAgree(h, lhs, a, b, tr);
      EvalExprAgree(h, rhs, a, b, EvalExpr(h, lhs, a, tr).1);
    case UnaryExpr(_, operand) => EvalExprAgree(h, operand, a, b, tr);
    case Call(_, args) => EvalExprsAgree(h, args, a, b, tr);
    case ArrayLen(arr) => EvalExprAgree(h, arr, a, b, tr);
    case ArrayLoad(arr, idx) =>
      EvalExprAgree(h, arr, a, b, tr);
      EvalExprAgree(h, idx, a, b, EvalExpr(h, arr, a, tr).1);
    case _ =>
  }

  lemma {:induction false} EvalExprsAgree(h: Host, es: seq<CirExpr>, a: Store, b: Store, tr: Trace)
    requires Agree(a, b, ExprsUses(es))
    ensures EvalExprs(h, es, a, tr) == EvalExprs(h, es, b, tr)
    decreases es
  {
    if es != [] {
      EvalExprAgree(h, es[0], a, b, tr);
      EvalExprsAgree(h, es[1..], a, b, EvalExpr(h, es[0], a, tr).1);
    }
  }
}
