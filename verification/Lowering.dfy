/** MIR to CIR lowering (src/cir_lower.rs): blocks are split at suspension points. */
module Lowering {
  import opened Options
  import opened Cir
  import opened Mir
  import opened Liveness
  import opened Frames

  // ----- translation of one statement, rvalue or terminator -----

  function VarOf(l: nat, pc: nat): nat { pc + l }

  function VarExpr(l: nat, pc: nat): CirExpr { Var(VarOf(l, pc)) }

  function VarExprs(ls: seq<nat>, pc: nat): (es: seq<CirExpr>)
    ensures |es| == |ls|
  {
    seq(|ls|, i requires 0 <= i < |ls| => VarExpr(ls[i], pc))
  }

  function TranslateConst(c: Constant): CirExpr {
    match c
    case IntConst(n) => ConstI64(TagInt(n))
    case FloatConst(f) => ConstF64(f)
    case BoolConst(b) => ConstBool(b)
    case NilConst => ConstNil
    case UnitConst => ConstUnit
    case StringConst(s) => ConstString(s)
    case OtherConst => ConstNil
  }

  function TranslateBinOp(op: MirBinOp): BinaryOp {
    match op
    case BAdd => Add case BSub => Sub case BMul => Mul case BDiv => Div case BMod => Mod
    case BEq => Eq case BNe => Neq case BLt => Lt case BLe => Lte case BGt => Gt case BGe => Gte
    case BAnd => And case BOr => Or
    case _ => Add
  }

  function TranslateUnOp(op: MirUnOp): UnaryOp {
    match op case UNeg => Neg case UNot => Not case _ => Not
  }

  function TranslateRValue(op: RValue, pc: nat): CirExpr {
    match op
    case Const(c) => TranslateConst(c)
    case Load(l) => VarExpr(l, pc)
    case Binary(bop, a, b) => BinaryExpr(TranslateBinOp(bop), VarExpr(a, pc), VarExpr(b, pc))
    case Unary(uop, a) => UnaryExpr(TranslateUnOp(uop), VarExpr(a, pc))
    case CallIndex(f, args) => Call(FUNC_IMPORT_COUNT + f, VarExprs(args, pc))
    case ArrLen(arr) => ArrayLen(VarExpr(arr, pc))
    case ArrLoad(arr, idx) => ArrayLoad(VarExpr(arr, pc), VarExpr(idx, pc))
    case _ => ConstNil
  }

  function TranslateStmt(s: Stmt, pc: nat): CirStmt {
    match s
    case Set(dst, op) =>
      if Suspends(op) then Assign(VarOf(dst, pc), ConstNil)
      else (match op
        case Perform(effect, o, args) =>
          (match KindOf(effect, o)
           case PrintOp => Assign(VarOf(dst, pc), Call(IMPORT_IO_PRINT, VarExprs(args, pc)))
           case PrintlnOp => Assign(VarOf(dst, pc), Call(IMPORT_IO_PRINT, VarExprs(args, pc)))
           case ReadOp => Assign(VarOf(dst, pc), Call(IMPORT_IO_READ, []))
           case LengthOp => Assign(VarOf(dst, pc), if args != [] then ArrayLen(VarExpr(args[0], pc)) else ConstNil)
           case _ => Assign(VarOf(dst, pc), ConstNil))
        case Send(actor, _, args) => Emit(ActorSend, [VarExpr(actor, pc)] + VarExprs(args, pc))
        case _ => Assign(VarOf(dst, pc), TranslateRValue(op, pc)))
    case EmitEvent(event, args) => Emit(HostEffect("Event", event), VarExprs(args, pc))
    case StateSet(_, src) => Emit(HostEffect("Actor", "state_set"), [VarExpr(src, pc)])
    case _ => Assign(FRAME_PTR_VAR, ConstNil)
  }

  function TranslateTerminator(t: Terminator, pc: nat): CirTerminator {
    match t
    case Ret(Some(l)) => Return(Some(VarExpr(l, pc)))
    case Ret(None) => Return(None)
    case Goto(t) => Jump(t)
    case CondGoto(c, t, e) => Branch(VarExpr(c, pc), t, e)
    case ResumeWith(l) => Resume(VarExpr(l, pc))
    case Unterminated => Return(None)
  }

  function SuspendEffectAndArgs(op: RValue, pc: nat): (EffectKind, seq<CirExpr>) {
    match op
    case Perform(_, _, args) => (LlmAsk, VarExprs(args, pc))
    case SignalWaitOp(name) => (SignalWait, [ConstString(name)])
    case ReceiveWait(_, n, t) => (MailboxDequeue, [ConstI64(n), VarExpr(t, pc)])
    case ReceiveMatch(_, n) => (MailboxDequeue, [ConstI64(n)])
    case PerformAsyncOp(o, args) => (PerformAsync, [ConstString(o)] + VarExprs(args, pc))
    case _ => (HostEffect("__cir", "unknown_suspend"), [])
  }

  function TranslateAll(stmts: seq<Stmt>, pc: nat): (ss: seq<CirStmt>)
    ensures |ss| == |stmts|
  {
    if stmts == [] then [] else [TranslateStmt(stmts[0], pc)] + TranslateAll(stmts[1..], pc)
  }

  /** Index of the first suspending statement, or the length if there is none. */
  function SplitAt(stmts: seq<Stmt>): (k: nat)
    ensures k <= |stmts|
    ensures k < |stmts| ==> SuspendsStmt(stmts[k])
    ensures forall j :: 0 <= j < k ==> !SuspendsStmt(stmts[j])
  {
    if stmts == [] || SuspendsStmt(stmts[0]) then 0 else 1 + SplitAt(stmts[1..])
  }

  function SuspendCount(stmts: seq<Stmt>): nat {
    if stmts == [] then 0 else (if SuspendsStmt(stmts[0]) then 1 else 0) + SuspendCount(stmts[1..])
  }

  function TotalSuspends(blocks: seq<Block>): nat {
    if blocks == [] then 0 else SuspendCount(blocks[0].stmts) + TotalSuspends(blocks[1..])
  }

  // ----- what lowering produces -----

  /** The MIR code a CIR block stands for: the rest of some MIR block. */
  datatype Segment = Segment(stmts: seq<Stmt>, terminator: Terminator)

  /** `t` ends the CIR block of segment `s`: the translated terminator, or a
      suspend whose resume block stands for what follows the suspension. */
  predicate EndsWith(segs: seq<Segment>, base: nat, s: Segment, t: CirTerminator, pc: nat) {
    var k := SplitAt(s.stmts);
    if k == |s.stmts| then t == TranslateTerminator(s.terminator, pc)
    else
      var (effect, args) := SuspendEffectAndArgs(s.stmts[k].op, pc);
      && t.SuspendAndYield? && t.effect == effect && t.args == args && t.liveVars == []
      && t.resumeVar == VarOf(s.stmts[k].dst, pc)
      && base <= t.resumeBlock < |segs|
      && segs[t.resumeBlock] == Segment(s.stmts[k + 1..], s.terminator)
  }

  predicate LoweredBlock(segs: seq<Segment>, base: nat, i: nat, b: CirBlock, pc: nat)
    requires i < |segs|
  {
    && b.id == i
    && b.stmts == TranslateAll(segs[i].stmts[..SplitAt(segs[i].stmts)], pc)
    && EndsWith(segs, base, segs[i], b.terminator, pc)
  }

  /** MIR block ids are a permutation of 0..n: each is below n and none is repeated. */
  ghost predicate DenseIds(f: Function) {
    && (forall i :: 0 <= i < |f.blocks| ==> f.blocks[i].id < |f.blocks|)
    && (forall i, j :: 0 <= i < j < |f.blocks| ==> f.blocks[i].id != f.blocks[j].id)
  }

  function ParamCount(f: Function): nat { |f.params| + |f.captures| }

  ghost predicate Lowered(f: Function, segs: seq<Segment>, blocks: seq<CirBlock>) {
    && |segs| == |blocks| == |f.blocks| + TotalSuspends(f.blocks)
    && (forall i :: 0 <= i < |blocks| ==> LoweredBlock(segs, |f.blocks|, i, blocks[i], ParamCount(f)))
    && (forall j :: 0 <= j < |f.blocks| ==>
          f.blocks[j].id < |segs| && segs[f.blocks[j].id] == Segment(f.blocks[j].stmts, f.blocks[j].terminator))
    && OneSource(blocks) && EverySource(|f.blocks|, blocks)
    && (forall i :: 0 <= i < |segs| ==> Suffix(f, segs[i]))
  }

  ghost predicate Suffix(f: Function, s: Segment) {
    exists j, k :: 0 <= j < |f.blocks| && 0 <= k <= |f.blocks[j].stmts| && s == SuffixAt(f, j, k)
  }

  ghost function SuffixAt(f: Function, j: nat, k: nat): Segment
    requires j < |f.blocks| && k <= |f.blocks[j].stmts|
  {
    Segment(f.blocks[j].stmts[k..], f.blocks[j].terminator)
  }

  lemma {:induction false} SuffixTail(f: Function, s: Segment, k: nat)
    requires Suffix(f, s) && k <= |s.stmts|
    ensures Suffix(f, Segment(s.stmts[k..], s.terminator))
  {
    var j, i :| 0 <= j < |f.blocks| && 0 <= i <= |f.blocks[j].stmts| && s == SuffixAt(f, j, i);
    assert f.blocks[j].stmts[i..][k..] == f.blocks[j].stmts[i + k..];
    assert Segment(s.stmts[k..], s.terminator) == SuffixAt(f, j, i + k);
  }

  /** No two suspends share a resume block. */
  ghost predicate OneSource(blocks: seq<CirBlock>) {
    forall i, j, r :: 0 <= i < |blocks| && 0 <= j < |blocks| && SuspendsTo(blocks[i], r) && SuspendsTo(blocks[j], r) ==> i == j
  }

  /** Every block beyond the MIR ones is the resume block of some suspend. */
  ghost predicate EverySource(base: nat, blocks: seq<CirBlock>) {
    forall r :: base <= r < |blocks| ==> HasSource(blocks, r)
  }

  ghost predicate HasSource(blocks: seq<CirBlock>, r: nat) {
    exists i :: 0 <= i < |blocks| && SuspendsTo(blocks[i], r)
  }

  ghost function Below(n: nat): (s: set<nat>)
    ensures |s| == n && forall x: nat :: x in s <==> x < n
  {
    if n == 0 then {} else Below(n - 1) + {n - 1}
  }

  /** Dense ids name every block below n (a pigeonhole argument). */
  lemma {:induction false} DenseIdsCover(f: Function, id: nat)
    requires DenseIds(f) && id < |f.blocks|
    ensures BlockIndex(f.blocks, id) < |f.blocks|
  {
    if BlockIndex(f.blocks, id) == |f.blocks| {
      var ids := seq(|f.blocks|, i requires 0 <= i < |f.blocks| => f.blocks[i].id);
      InjectiveBound(ids, Below(|f.blocks|) - {id});
      assert false;
    }
  }

  lemma {:induction false} InjectiveBound(ids: seq<nat>, s: set<nat>)
    requires forall i :: 0 <= i < |ids| ==> ids[i] in s
    requires forall i, j :: 0 <= i < j < |ids| ==> ids[i] != ids[j]
    ensures |ids| <= |s|
  {
    if ids != [] {
      InjectiveBound(ids[1..], s - {ids[0]});
    }
  }
}
