/** Lowering simulates MIR: the split blocks perform the same events in the same
    order and return the same value, for every host and at every fuel. */
module LoweringSim {
  import opened Options
  import opened Cir
  import opened Mir
  import opened Frames
  import opened Lowering

  /** Locals that a receive fills in MIR and that the lowered suspend does not deliver. */
  predicate Undelivers(s: Stmt, l: nat) {
    s.Set? && s.dst < l <= s.dst + PayloadCount(s.op)
  }

  /** Code that reads only locals in `used`, none of which it leaves undelivered. */
  ghost predicate CodeOk(used: set<nat>, n: nat, stmts: seq<Stmt>, term: Terminator) {
    && (forall s :: s in stmts ==> StmtReads(s) <= used && forall l :: l in used ==> !Undelivers(s, l))
    && TermReads(term) <= used
    && (forall t :: t in TermTargets(term) ==> t < n)
  }

  /** The functions the simulation is about: dense block ids, valid targets, no
      read of an undelivered local, and no read that maps to the frame pointer. */
  ghost predicate Lowerable(f: Function, used: set<nat>) {
    && DenseIds(f) && f.entry < |f.blocks|
    && (forall l :: l in used ==> VarOf(l, ParamCount(f)) != FRAME_PTR_VAR)
    && (forall b :: b in f.blocks ==> CodeOk(used, |f.blocks|, b.stmts, b.terminator))
  }

  ghost predicate Rel(used: set<nat>, pc: nat, mst: Store, cst: Store) {
    forall l :: l in used ==> Get(mst, l) == Get(cst, VarOf(l, pc))
  }

  /** The CIR outcome is the erasure of the MIR one; a MIR run that stops at
      something unsupported is matched up to there. */
  ghost predicate Matches(h: Host, mo: MirOutcome, co: Outcome) {
    match mo
    case MFinished(es, v) => co == Finished(EraseAll(h, es), v)
    case MResumed(es, v) => co == Resumed(EraseAll(h, es), v)
    case MStuck(es) => co == Stuck(EraseAll(h, es))
    case MCut(es) => co == Cut(EraseAll(h, es))
    case MUnsupported(es) => EraseAll(h, es) <= co.trace
  }

  lemma {:induction false} ExprGrows(h: Host, e: CirExpr, st: Store, tr: Trace)
    ensures tr <= EvalExpr(h, e, st, tr).1
    decreases e
  {
    match e
    case BinaryExpr(_, lhs, rhs) =>
      ExprGrows(h, lhs, st, tr);
      ExprGrows(h, rhs, st, EvalExpr(h, lhs, st, tr).1);
    case UnaryExpr(_, operand) => ExprGrows(h, operand, st, tr);
    case Call(_, args) => ExprsGrow(h, args, st, tr);
    case ArrayLen(arr) => ExprGrows(h, arr, st, tr);
    case ArrayLoad(arr, idx) =>
      ExprGrows(h, arr, st, tr);
      ExprGrows(h, idx, st, EvalExpr(h, arr, st, tr).1);
    case _ =>
  }

  lemma {:induction false} ExprsGrow(h: Host, es: seq<CirExpr>, st: Store, tr: Trace)
    ensures tr <= EvalExprs(h, es, st, tr).1
    decreases es
  {
    if es != [] {
      ExprGrows(h, es[0], st, tr);
      ExprsGrow(h, es[1..], st, EvalExpr(h, es[0], st, tr).1);
    }
  }

  lemma {:induction false} StmtGrows(h: Host, s: CirStmt, st: Store, tr: Trace)
    ensures tr <= ExecStmt(h, s, st, tr).1
  {
    hide EvalExpr, EvalExprs;
    match s
    case Assign(_, src) => ExprGrows(h, src, st, tr);
    case Emit(_, args) => ExprsGrow(h, args, st, tr);
    case _ =>
  }

  /** A run never takes an event back. */
  lemma {:induction false} RunGrows(blocks: seq<CirBlock>, h: Host, stmts: seq<CirStmt>, term: CirTerminator, st: Store, tr: Trace, fuel: nat)
    ensures tr <= Run(blocks, h, stmts, term, st, tr, fuel).trace
    decreases fuel, 1 + |stmts|
  {
    hide EvalExpr, EvalExprs, ExecStmt;
    if stmts != [] {
      StmtGrows(h, stmts[0], st, tr);
      var (st1, tr1) := ExecStmt(h, stmts[0], st, tr);
      RunGrows(blocks, h, stmts[1..], term, st1, tr1, fuel);
    } else {
      match term
      case Return(r) => if r.Some? { ExprGrows(h, r.value, st, tr); }
      case Resume(e) => ExprGrows(h, e, st, tr);
      case Jump(t) => EnterGrows(blocks, h, t, st, tr, fuel);
      case Branch(c, t, f) =>
        ExprGrows(h, c, st, tr);
        var (v, tr1) := EvalExpr(h, c, st, tr);
        EnterGrows(blocks, h, if v != TagBool(false) then t else f, st, tr1, fuel);
      case SuspendAndYield(effect, args, resume, dst, _) =>
        ExprsGrow(h, args, st, tr);
        var (vs, tr1) := EvalExprs(h, args, st, tr);
        var tr2 := tr1 + [Suspended(effect, vs)];
        EnterGrows(blocks, h, resume, st[dst := h.reply(tr2)], tr2, fuel);
    }
  }

  lemma {:induction false} EnterGrows(blocks: seq<CirBlock>, h: Host, t: nat, st: Store, tr: Trace, fuel: nat)
    ensures tr <= Enter(blocks, h, t, st, tr, fuel).trace
    decreases fuel, 0
  {
    if fuel > 0 && t < |blocks| { RunGrows(blocks, h, blocks[t].stmts, blocks[t].terminator, st, tr, fuel - 1); }
  }

  lemma {:induction false} EraseSnoc(h: Host, es: seq<MirEvent>, e: MirEvent)
    ensures EraseAll(h, es + [e]) == EraseAll(h, es) + [Erase(h, e)]
  {
    assert (es + [e])[..|es|] == es;
  }

  lemma {:induction false} VarExprsEval(h: Host, used: set<nat>, pc: nat, ls: seq<nat>, mst: Store, cst: Store, tr: Trace)
    requires Rel(used, pc, mst, cst) && SetOf(ls) <= used
    ensures EvalExprs(h, VarExprs(ls, pc), cst, tr) == (GetAll(mst, ls), tr)
  {
    if ls == [] {
      assert GetAll(mst, ls) == [];
    } else {
      assert ls[0] in SetOf(ls);
      assert SetOf(ls[1..]) <= SetOf(ls);
      assert VarExprs(ls, pc)[0] == VarExpr(ls[0], pc);
      assert VarExprs(ls, pc)[1..] == VarExprs(ls[1..], pc);
      VarExprsEval(h, used, pc, ls[1..], mst, cst, tr);
      assert GetAll(mst, ls) == [Get(mst, ls[0])] + GetAll(mst, ls[1..]);
    }
  }

  lemma {:induction false} ConsEval(h: Host, e: CirExpr, es: seq<CirExpr>, cst: Store, tr: Trace)
    requires EvalExpr(h, e, cst, tr).1 == tr
    ensures EvalExprs(h, [e] + es, cst, tr)
         == ([EvalExpr(h, e, cst, tr).0] + EvalExprs(h, es, cst, tr).0, EvalExprs(h, es, cst, tr).1)
  {
    assert ([e] + es)[1..] == es;
  }

  lemma {:induction false} OneEval(h: Host, e: CirExpr, cst: Store, tr: Trace)
    requires EvalExpr(h, e, cst, tr).1 == tr
    ensures EvalExprs(h, [e], cst, tr) == ([EvalExpr(h, e, cst, tr).0], tr)
  {
    ConsEval(h, e, [], cst, tr);
    assert [e] + [] == [e] && [EvalExpr(h, e, cst, tr).0] + [] == [EvalExpr(h, e, cst, tr).0];
  }

  lemma {:induction false} RelUpdate(used: set<nat>, pc: nat, mst: Store, cst: Store, dst: nat, v: Val)
    requires Rel(used, pc, mst, cst)
    ensures Rel(used, pc, mst[dst := v], cst[VarOf(dst, pc) := v])
  {
    forall l | l in used ensures Get(mst[dst := v], l) == Get(cst[VarOf(dst, pc) := v], VarOf(l, pc)) {
      assert Get(mst, l) == Get(cst, VarOf(l, pc));
    }
  }

  lemma {:induction false} RelFramePtr(used: set<nat>, pc: nat, mst: Store, cst: Store, v: Val)
    requires Rel(used, pc, mst, cst) && forall l :: l in used ==> VarOf(l, pc) != FRAME_PTR_VAR
    ensures Rel(used, pc, mst, cst[FRAME_PTR_VAR := v])
  {
    forall l | l in used ensures Get(mst, l) == Get(cst[FRAME_PTR_VAR := v], VarOf(l, pc)) {
      assert Get(mst, l) == Get(cst, VarOf(l, pc));
    }
  }

  lemma {:induction false} OperatorsKept(bop: MirBinOp, uop: MirUnOp)
    ensures OperatorOf(bop).Some? ==> OperatorOf(bop).value == BinaryMeaning(TranslateBinOp(bop))
    ensures UnaryOperatorOf(uop).Some? ==> UnaryOperatorOf(uop).value == UnaryMeaning(TranslateUnOp(uop))
  {
  }

  lemma {:induction false} CallSim(h: Host, used: set<nat>, pc: nat, op: RValue, mst: Store, cst: Store, es: seq<MirEvent>)
    requires Rel(used, pc, mst, cst) && RValueReads(op) <= used && op.CallIndex?
    ensures var (v, es1) := EvalRValue(h, op, mst, es).value;
            EvalExpr(h, TranslateRValue(op, pc), cst, EraseAll(h, es)) == (v, EraseAll(h, es1))
  {
    hide EvalExprs, EraseAll, VarExprs, GetAll;
    VarExprsEval(h, used, pc, op.args, mst, cst, EraseAll(h, es));
    EraseSnoc(h, es, FunctionCalled(op.func, GetAll(mst, op.args)));
  }

  lemma {:induction false} ConstSim(h: Host, c: Constant, cst: Store, tr: Trace)
    requires ConstVal(h, c).Some?
    ensures EvalExpr(h, TranslateConst(c), cst, tr) == (ConstVal(h, c).value, tr)
  {
  }

  /** The expression an rvalue translates to has its value and its events. */
  lemma {:induction false} RValueSim(h: Host, used: set<nat>, pc: nat, op: RValue, mst: Store, cst: Store, es: seq<MirEvent>)
    requires Rel(used, pc, mst, cst) && RValueReads(op) <= used && !op.Perform? && !Suspends(op)
    requires EvalRValue(h, op, mst, es).Some?
    ensures var (v, es1) := EvalRValue(h, op, mst, es).value;
            EvalExpr(h, TranslateRValue(op, pc), cst, EraseAll(h, es)) == (v, EraseAll(h, es1))
  {
    hide OperatorOf, UnaryOperatorOf, BinaryMeaning, UnaryMeaning, TranslateBinOp, TranslateUnOp, EraseAll, ConstVal, TranslateConst;
    if op.Const? { ConstSim(h, op.c, cst, EraseAll(h, es)); }
    else if op.CallIndex? { CallSim(h, used, pc, op, mst, cst, es); }
    else if op.Binary? { OperatorsKept(op.bop, UNeg); }
    else if op.Unary? { OperatorsKept(BAdd, op.uop); }
  }

  lemma {:induction false} PrintSim(h: Host, used: set<nat>, pc: nat, args: seq<nat>, newline: bool, mst: Store, cst: Store, es: seq<MirEvent>)
    requires Rel(used, pc, mst, cst) && SetOf(args) <= used
    ensures var (v, es1) := Ask(h, es, Printed(newline, GetAll(mst, args)));
            EvalExpr(h, Call(IMPORT_IO_PRINT, VarExprs(args, pc)), cst, EraseAll(h, es)) == (v, EraseAll(h, es1))
  {
    hide EvalExprs, EraseAll, VarExprs, GetAll;
    VarExprsEval(h, used, pc, args, mst, cst, EraseAll(h, es));
    EraseSnoc(h, es, Printed(newline, GetAll(mst, args)));
  }

  lemma {:induction false} ReadSim(h: Host, cst: Store, es: seq<MirEvent>)
    ensures var (v, es1) := Ask(h, es, LineRead);
            EvalExpr(h, Call(IMPORT_IO_READ, []), cst, EraseAll(h, es)) == (v, EraseAll(h, es1))
  {
    hide EraseAll;
    EraseSnoc(h, es, LineRead);
  }

  lemma {:induction false} PerformSim(h: Host, used: set<nat>, pc: nat, dst: nat, op: RValue, mst: Store, cst: Store, es: seq<MirEvent>)
    requires Rel(used, pc, mst, cst) && RValueReads(op) <= used && op.Perform? && !Suspends(op)
    requires EvalRValue(h, op, mst, es).Some?
    ensures var (v, es1) := EvalRValue(h, op, mst, es).value;
            ExecStmt(h, TranslateStmt(Set(dst, op), pc), cst, EraseAll(h, es)) == (cst[VarOf(dst, pc) := v], EraseAll(h, es1))
  {
    hide KindOf, EvalExprs, EraseAll, VarExprs, GetAll, Ask;
    var kind, args := KindOf(op.effect, op.op), op.args;
    if kind == PrintOp || kind == PrintlnOp {
      PrintSim(h, used, pc, args, kind == PrintlnOp, mst, cst, es);
    } else if kind == ReadOp {
      ReadSim(h, cst, es);
    } else {
      assert args[0] in SetOf(args);
      assert EvalExpr(h, VarExpr(args[0], pc), cst, EraseAll(h, es)) == (Get(mst, args[0]), EraseAll(h, es));
    }
  }

  lemma {:induction false} SendSim(h: Host, used: set<nat>, pc: nat, s: Stmt, mst: Store, cst: Store, es: seq<MirEvent>)
    requires Rel(used, pc, mst, cst) && StmtReads(s) <= used && s.Set? && s.op.Send?
    ensures ExecStmt(h, TranslateStmt(s, pc), cst, EraseAll(h, es)) == (cst, EraseAll(h, ExecMir(h, s, mst, es).value.1))
  {
    hide EvalExprs, EraseAll, VarExprs, GetAll;
    var tr, args := EraseAll(h, es), s.op.args;
    VarExprsEval(h, used, pc, args, mst, cst, tr);
    ConsEval(h, VarExpr(s.op.actor, pc), VarExprs(args, pc), cst, tr);
    EraseSnoc(h, es, MessageSent(Get(mst, s.op.actor), s.op.behavior, GetAll(mst, args)));
  }

  lemma {:induction false} EmitSim(h: Host, used: set<nat>, pc: nat, s: Stmt, mst: Store, cst: Store, es: seq<MirEvent>)
    requires Rel(used, pc, mst, cst) && StmtReads(s) <= used && (s.EmitEvent? || s.StateSet?)
    ensures ExecStmt(h, TranslateStmt(s, pc), cst, EraseAll(h, es)) == (cst, EraseAll(h, ExecMir(h, s, mst, es).value.1))
  {
    hide EvalExprs, EraseAll, VarExprs, GetAll;
    var tr := EraseAll(h, es);
    if s.EmitEvent? {
      VarExprsEval(h, used, pc, s.args, mst, cst, tr);
      EraseSnoc(h, es, EventEmitted(s.event, GetAll(mst, s.args)));
    } else {
      OneEval(h, VarExpr(s.src, pc), cst, tr);
      EraseSnoc(h, es, StateWritten(s.field, Get(mst, s.src)));
    }
  }

  lemma {:induction false} AssignSim(h: Host, used: set<nat>, pc: nat, s: Stmt, mst: Store, cst: Store, es: seq<MirEvent>)
    requires Rel(used, pc, mst, cst) && StmtReads(s) <= used && s.Set? && !s.op.Send? && !Suspends(s.op)
    requires EvalRValue(h, s.op, mst, es).Some?
    ensures var (v, es1) := EvalRValue(h, s.op, mst, es).value;
            ExecStmt(h, TranslateStmt(s, pc), cst, EraseAll(h, es)) == (cst[VarOf(s.dst, pc) := v], EraseAll(h, es1))
  {
    hide EvalRValue, EraseAll;
    if s.op.Perform? { PerformSim(h, used, pc, s.dst, s.op, mst, cst, es); }
    else { RValueSim(h, used, pc, s.op, mst, cst, es); }
  }

  /** A supported non-suspending statement and its translation take the same step. */
  lemma {:induction false} StmtSim(h: Host, used: set<nat>, pc: nat, s: Stmt, mst: Store, cst: Store, es: seq<MirEvent>)
    requires Rel(used, pc, mst, cst) && StmtReads(s) <= used && !SuspendsStmt(s)
    requires forall l :: l in used ==> VarOf(l, pc) != FRAME_PTR_VAR
    requires ExecMir(h, s, mst, es).Some?
    ensures var (mst1, es1) := ExecMir(h, s, mst, es).value;
            var (cst1, tr1) := ExecStmt(h, TranslateStmt(s, pc), cst, EraseAll(h, es));
            tr1 == EraseAll(h, es1) && Rel(used, pc, mst1, cst1)
  {
    hide EvalRValue, EraseAll, TranslateRValue, Rel;
    if s.Set? && s.op.Send? {
      SendSim(h, used, pc, s, mst, cst, es);
    } else if s.Set? {
      RelUpdate(used, pc, mst, cst, s.dst, EvalRValue(h, s.op, mst, es).value.0);
      AssignSim(h, used, pc, s, mst, cst, es);
    } else if s.EmitEvent? || s.StateSet? {
      EmitSim(h, used, pc, s, mst, cst, es);
    } else {
      RelFramePtr(used, pc, mst, cst, TAG_NIL);
    }
  }

  /** The suspend of a suspending rvalue asks the host for the same thing. */
  lemma {:induction false} SuspendArgsSim(h: Host, used: set<nat>, pc: nat, op: RValue, mst: Store, cst: Store, es: seq<MirEvent>)
    requires Rel(used, pc, mst, cst) && RValueReads(op) <= used && Suspends(op)
    ensures var (effect, args) := SuspendEffectAndArgs(op, pc);
            var (vs, tr1) := EvalExprs(h, args, cst, EraseAll(h, es));
            tr1 + [Suspended(effect, vs)] == EraseAll(h, es + [SuspendEvent(op, mst)])
  {
    hide EvalExprs, EraseAll, VarExprs, GetAll;
    var tr := EraseAll(h, es);
    EraseSnoc(h, es, SuspendEvent(op, mst));
    match op
    case Perform(_, _, args) => VarExprsEval(h, used, pc, args, mst, cst, tr);
    case SignalWaitOp(name) => OneEval(h, ConstString(name), cst, tr);
    case ReceiveWait(_, n, t) =>
      OneEval(h, VarExpr(t, pc), cst, tr);
      ConsEval(h, ConstI64(n), [VarExpr(t, pc)], cst, tr);
      assert [ConstI64(n)] + [VarExpr(t, pc)] == [ConstI64(n), VarExpr(t, pc)];
      assert [n] + [Get(mst, t)] == [n, Get(mst, t)];
    case ReceiveMatch(_, n) => OneEval(h, ConstI64(n), cst, tr);
    case PerformAsyncOp(o, args) =>
      VarExprsEval(h, used, pc, args, mst, cst, tr);
      ConsEval(h, ConstString(o), VarExprs(args, pc), cst, tr);
  }

  lemma {:induction false} PayloadOutside(mh: MirHost, used: set<nat>, tr: Trace, st: Store, dst: nat, n: nat)
    requires forall l :: l in used ==> !(dst < l <= dst + n)
    ensures forall l :: l in used ==> Get(WritePayload(mh, tr, st, dst, n), l) == Get(st, l)
  {
    if n > 0 {
      PayloadOutside(mh, used, tr, st, dst, n - 1);
    }
  }

  lemma {:induction false} SplitStep(stmts: seq<Stmt>, pc: nat)
    requires stmts != [] && !SuspendsStmt(stmts[0])
    ensures SplitAt(stmts) == 1 + SplitAt(stmts[1..])
    ensures TranslateAll(stmts[..SplitAt(stmts)], pc)
         == [TranslateStmt(stmts[0], pc)] + TranslateAll(stmts[1..][..SplitAt(stmts[1..])], pc)
  {
    assert stmts[..SplitAt(stmts)][1..] == stmts[1..][..SplitAt(stmts[1..])];
  }

  /** From any point of any segment, the lowered code matches. */
  lemma {:induction false} CodeSim(f: Function, segs: seq<Segment>, blocks: seq<CirBlock>, mh: MirHost, used: set<nat>,
                                   stmts: seq<Stmt>, term: Terminator, t: CirTerminator, mst: Store, cst: Store, es: seq<MirEvent>, fuel: nat)
    requires Lowerable(f, used) && Lowered(f, segs, blocks)
    requires CodeOk(used, |f.blocks|, stmts, term)
    requires EndsWith(segs, |f.blocks|, Segment(stmts, term), t, ParamCount(f))
    requires Rel(used, ParamCount(f), mst, cst)
    ensures Matches(mh.host, RunMir(f, mh, stmts, term, mst, es, fuel),
                    Run(blocks, mh.host, TranslateAll(stmts[..SplitAt(stmts)], ParamCount(f)), t, cst, EraseAll(mh.host, es), fuel))
    decreases fuel, 1 + |stmts|
  {
    hide Lowerable, Lowered, RunMir, Run, EndsWith, ExecMir, ExecStmt, TranslateStmt, EraseAll;
    var pc, h := ParamCount(f), mh.host;
    LowerableFacts(f, used);
    if stmts == [] {
      assert stmts[..SplitAt(stmts)] == [];
      assert TranslateAll([], pc) == [];
      PlainEnd(segs, |f.blocks|, term, t, pc);
      TermSim(f, segs, blocks, mh, used, term, mst, cst, es, fuel);
    } else if SuspendsStmt(stmts[0]) {
      assert stmts[..SplitAt(stmts)] == [];
      assert stmts[0] in stmts;
      SuspendCodeSim(f, segs, blocks, mh, used, stmts, term, t, mst, cst, es, fuel);
    } else {
      assert stmts[0] in stmts;
      RunStep(f, blocks, mh, stmts, term, t, pc, mst, cst, es, fuel);
      RunGrows(blocks, h, TranslateAll(stmts[..SplitAt(stmts)], pc), t, cst, EraseAll(h, es), fuel);
      if ExecMir(h, stmts[0], mst, es).Some? {
        StmtSim(h, used, pc, stmts[0], mst, cst, es);
        EndsWithTail(segs, |f.blocks|, stmts, term, t, pc);
        var (mst1, es1) := ExecMir(h, stmts[0], mst, es).value;
        var (cst1, tr1) := ExecStmt(h, TranslateStmt(stmts[0], pc), cst, EraseAll(h, es));
        CodeSim(f, segs, blocks, mh, used, stmts[1..], term, t, mst1, cst1, es1, fuel);
      }
    }
  }

  lemma {:induction false} RunStep(f: Function, blocks: seq<CirBlock>, mh: MirHost, stmts: seq<Stmt>, term: Terminator, t: CirTerminator,
                pc: nat, mst: Store, cst: Store, es: seq<MirEvent>, fuel: nat)
    requires stmts != [] && !SuspendsStmt(stmts[0])
    ensures RunMir(f, mh, stmts, term, mst, es, fuel)
         == match ExecMir(mh.host, stmts[0], mst, es)
            case None => MUnsupported(es)
            case Some((mst1, es1)) => RunMir(f, mh, stmts[1..], term, mst1, es1, fuel)
    ensures var (cst1, tr1) := ExecStmt(mh.host, TranslateStmt(stmts[0], pc), cst, EraseAll(mh.host, es));
            Run(blocks, mh.host, TranslateAll(stmts[..SplitAt(stmts)], pc), t, cst, EraseAll(mh.host, es), fuel)
            == Run(blocks, mh.host, TranslateAll(stmts[1..][..SplitAt(stmts[1..])], pc), t, cst1, tr1, fuel)
  {
    hide TranslateStmt, ExecMir, ExecStmt, EraseAll;
    SplitStep(stmts, pc);
    var rest := TranslateAll(stmts[1..][..SplitAt(stmts[1..])], pc);
    assert ([TranslateStmt(stmts[0], pc)] + rest)[1..] == rest;
  }

  lemma {:induction false} PlainEnd(segs: seq<Segment>, base: nat, term: Terminator, t: CirTerminator, pc: nat)
    requires EndsWith(segs, base, Segment([], term), t, pc)
    ensures t == TranslateTerminator(term, pc)
  {
  }

  lemma {:induction false} EndsWithTail(segs: seq<Segment>, base: nat, stmts: seq<Stmt>, term: Terminator, t: CirTerminator, pc: nat)
    requires stmts != [] && !SuspendsStmt(stmts[0]) && EndsWith(segs, base, Segment(stmts, term), t, pc)
    ensures EndsWith(segs, base, Segment(stmts[1..], term), t, pc)
  {
    SplitStep(stmts, pc);
    var k := SplitAt(stmts);
    if k < |stmts| { assert stmts[k + 1..] == stmts[1..][k..]; }
  }

  lemma {:induction false} LowerableFacts(f: Function, used: set<nat>)
    requires Lowerable(f, used)
    ensures forall l :: l in used ==> VarOf(l, ParamCount(f)) != FRAME_PTR_VAR
  {
  }

  /** A suspending statement becomes a suspend, and the rest of its block the resume block. */
  lemma {:induction false} SuspendCodeSim(f: Function, segs: seq<Segment>, blocks: seq<CirBlock>, mh: MirHost, used: set<nat>,
                                          stmts: seq<Stmt>, term: Terminator, t: CirTerminator, mst: Store, cst: Store, es: seq<MirEvent>, fuel: nat)
    requires Lowerable(f, used) && Lowered(f, segs, blocks)
    requires stmts != [] && SuspendsStmt(stmts[0]) && CodeOk(used, |f.blocks|, stmts, term)
    requires EndsWith(segs, |f.blocks|, Segment(stmts, term), t, ParamCount(f))
    requires Rel(used, ParamCount(f), mst, cst)
    ensures Matches(mh.host, RunMir(f, mh, stmts, term, mst, es, fuel), Run(blocks, mh.host, [], t, cst, EraseAll(mh.host, es), fuel))
    decreases fuel, 0
  {
    hide Lowerable, Lowered, RunMir, Run, Enter, EndsWith, SuspendEvent, Suspends;
    var pc, h, s := ParamCount(f), mh.host, stmts[0];
    assert s in stmts;
    SuspendEnd(segs, |f.blocks|, stmts, term, t, pc);
    RunSuspends(blocks, h, used, pc, segs, |f.blocks|, stmts, term, t, mst, cst, es, fuel);
    RunMirSuspends(f, mh, stmts, term, mst, es, fuel);
    var es1 := es + [SuspendEvent(s.op, mst)];
    var tr1, r := EraseAll(h, es1), t.resumeBlock;
    var cst1 := cst[VarOf(s.dst, pc) := h.reply(tr1)];
    LoweredFacts(f, segs, blocks, r);
    EnterRuns(blocks, h, r, cst1, tr1, fuel);
    if fuel > 0 {
      var mst1 := WritePayload(mh, tr1, mst[s.dst := h.reply(tr1)], s.dst, PayloadCount(s.op));
      RelUpdate(used, pc, mst, cst, s.dst, h.reply(tr1));
      assert forall l :: l in used ==> !Undelivers(s, l);
      PayloadOutside(mh, used, tr1, mst[s.dst := h.reply(tr1)], s.dst, PayloadCount(s.op));
      CodeSim(f, segs, blocks, mh, used, stmts[1..], term, blocks[r].terminator, mst1, cst1, es1, fuel - 1);
    }
  }

  lemma {:induction false} SuspendEnd(segs: seq<Segment>, base: nat, stmts: seq<Stmt>, term: Terminator, t: CirTerminator, pc: nat)
    requires stmts != [] && SuspendsStmt(stmts[0]) && EndsWith(segs, base, Segment(stmts, term), t, pc)
    ensures t.SuspendAndYield? && t.resumeBlock < |segs| && segs[t.resumeBlock] == Segment(stmts[1..], term)
  {
  }

  lemma {:induction false} EnterRuns(blocks: seq<CirBlock>, h: Host, r: nat, cst: Store, tr: Trace, fuel: nat)
    requires r < |blocks|
    ensures Enter(blocks, h, r, cst, tr, fuel)
         == if fuel == 0 then Cut(tr) else Run(blocks, h, blocks[r].stmts, blocks[r].terminator, cst, tr, fuel - 1)
  {
  }

  lemma {:induction false} RunSuspends(blocks: seq<CirBlock>, h: Host, used: set<nat>, pc: nat, segs: seq<Segment>, base: nat,
                    stmts: seq<Stmt>, term: Terminator, t: CirTerminator, mst: Store, cst: Store, es: seq<MirEvent>, fuel: nat)
    requires stmts != [] && SuspendsStmt(stmts[0]) && EndsWith(segs, base, Segment(stmts, term), t, pc)
    requires Rel(used, pc, mst, cst) && StmtReads(stmts[0]) <= used
    ensures var tr1 := EraseAll(h, es + [SuspendEvent(stmts[0].op, mst)]);
            Run(blocks, h, [], t, cst, EraseAll(h, es), fuel)
            == Enter(blocks, h, t.resumeBlock, cst[VarOf(stmts[0].dst, pc) := h.reply(tr1)], tr1, fuel)
  {
    SuspendArgsSim(h, used, pc, stmts[0].op, mst, cst, es);
  }

  lemma {:induction false} RunMirSuspends(f: Function, mh: MirHost, stmts: seq<Stmt>, term: Terminator, mst: Store, es: seq<MirEvent>, fuel: nat)
    requires stmts != [] && SuspendsStmt(stmts[0])
    ensures var es1 := es + [SuspendEvent(stmts[0].op, mst)];
            var tr1, dst := EraseAll(mh.host, es1), stmts[0].dst;
            var mst1 := WritePayload(mh, tr1, mst[dst := mh.host.reply(tr1)], dst, PayloadCount(stmts[0].op));
            RunMir(f, mh, stmts, term, mst, es, fuel)
            == if fuel == 0 then MCut(es1) else RunMir(f, mh, stmts[1..], term, mst1, es1, fuel - 1)
  {
  }

  lemma {:induction false} LoweredFacts(f: Function, segs: seq<Segment>, blocks: seq<CirBlock>, r: nat)
    requires Lowered(f, segs, blocks) && r < |segs|
    ensures |blocks| == |segs| && LoweredBlock(segs, |f.blocks|, r, blocks[r], ParamCount(f))
  {
  }

  lemma {:induction false} TermSim(f: Function, segs: seq<Segment>, blocks: seq<CirBlock>, mh: MirHost, used: set<nat>,
                term: Terminator, mst: Store, cst: Store, es: seq<MirEvent>, fuel: nat)
    requires Lowerable(f, used) && Lowered(f, segs, blocks)
    requires CodeOk(used, |f.blocks|, [], term) && Rel(used, ParamCount(f), mst, cst)
    ensures Matches(mh.host, RunMir(f, mh, [], term, mst, es, fuel),
                    Run(blocks, mh.host, [], TranslateTerminator(term, ParamCount(f)), cst, EraseAll(mh.host, es), fuel))
    decreases fuel, 0, 1
  {
    hide Lowerable, Lowered;
    match term
    case Goto(t) =>
      assert t in TermTargets(term);
      EnterCodeSim(f, segs, blocks, mh, used, t, mst, cst, es, fuel);
    case CondGoto(c, t, e) =>
      assert t in TermTargets(term) && e in TermTargets(term);
      EnterCodeSim(f, segs, blocks, mh, used, if Get(mst, c) != TagBool(false) then t else e, mst, cst, es, fuel);
    case _ =>
  }

  lemma {:induction false} EnterCodeSim(f: Function, segs: seq<Segment>, blocks: seq<CirBlock>, mh: MirHost, used: set<nat>,
                                        id: nat, mst: Store, cst: Store, es: seq<MirEvent>, fuel: nat)
    requires Lowerable(f, used) && Lowered(f, segs, blocks) && id < |f.blocks|
    requires Rel(used, ParamCount(f), mst, cst)
    ensures Matches(mh.host, EnterMir(f, mh, id, mst, es, fuel), Enter(blocks, mh.host, id, cst, EraseAll(mh.host, es), fuel))
    decreases fuel, 0, 0
  {
    hide Lowerable, Lowered, RunMir, Run, EndsWith, CodeOk, Rel;
    if fuel > 0 {
      MirBlockFacts(f, segs, blocks, used, id);
      LoweredFacts(f, segs, blocks, id);
      EnterRuns(blocks, mh.host, id, cst, EraseAll(mh.host, es), fuel);
      var i := BlockIndex(f.blocks, id);
      CodeSim(f, segs, blocks, mh, used, f.blocks[i].stmts, f.blocks[i].terminator, blocks[id].terminator, mst, cst, es, fuel - 1);
    }
  }

  lemma {:induction false} MirBlockFacts(f: Function, segs: seq<Segment>, blocks: seq<CirBlock>, used: set<nat>, id: nat)
    requires Lowerable(f, used) && Lowered(f, segs, blocks) && id < |f.blocks|
    ensures var i := BlockIndex(f.blocks, id);
            && i < |f.blocks| && id < |segs|
            && segs[id] == Segment(f.blocks[i].stmts, f.blocks[i].terminator)
            && CodeOk(used, |f.blocks|, f.blocks[i].stmts, f.blocks[i].terminator)
  {
    DenseIdsCover(f, id);
    assert f.blocks[BlockIndex(f.blocks, id)] in f.blocks;
  }

  /** Lowering simulates MIR from the entry block. */
  lemma {:induction false} LoweringSimulates(f: Function, segs: seq<Segment>, blocks: seq<CirBlock>, mh: MirHost, used: set<nat>, mst: Store, cst: Store, fuel: nat)
    requires Lowerable(f, used) && Lowered(f, segs, blocks) && Rel(used, ParamCount(f), mst, cst)
    ensures Matches(mh.host, EnterMir(f, mh, f.entry, mst, [], fuel), Enter(blocks, mh.host, f.entry, cst, [], fuel))
  {
    EnterCodeSim(f, segs, blocks, mh, used, f.entry, mst, cst, [], fuel);
  }
}
