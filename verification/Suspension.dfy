/** The suspension compiler end to end: MIR, split into CIR, with frames inserted. */
module Suspension {
  import opened Cir
  import opened Mir
  import opened Liveness
  import opened Frames
  import opened FrameSoundness
  import opened FrameInsertion
  import opened Lowering
  import opened LoweringSim
  import opened Splitting

  // ----- conditions on MIR -----

  predicate Defines(s: Stmt) { s.Set? && !s.op.Send? }

  /** Between two suspensions, a statement that assigns a local for a second
      time reads nothing. What a suspending statement reads belongs to the end
      of its block, and its block ends there. */
  predicate SingleDef(stmts: seq<Stmt>, defs: set<nat>) {
    stmts == [] ||
    if SuspendsStmt(stmts[0]) then SingleDef(stmts[1..], {})
    else
      && (Defines(stmts[0]) && stmts[0].dst in defs ==> StmtReads(stmts[0]) == {})
      && SingleDef(stmts[1..], DefsAfter(stmts[0], defs))
  }

  function DefsAfter(s: Stmt, defs: set<nat>): set<nat> { if Defines(s) then defs + {s.dst} else defs }

  ghost predicate Fits(pc: nat, s: Stmt) {
    && (forall l :: l in StmtReads(s) ==> VarOf(l, pc) < STATE_VAR)
    && (s.Set? ==> VarOf(s.dst, pc) < STATE_VAR)
  }

  /** What the end-to-end result asks of a MIR function. */
  ghost predicate Compilable(f: Function, used: set<nat>) {
    && Lowerable(f, used)
    && (forall b :: b in f.blocks ==> SingleDef(b.stmts, {}))
    && (forall b, s :: b in f.blocks && s in b.stmts ==> Fits(ParamCount(f), s))
    && (forall b, l :: b in f.blocks && l in TermReads(b.terminator) ==> VarOf(l, ParamCount(f)) < STATE_VAR)
  }

  lemma {:induction false} SingleDefSmaller(stmts: seq<Stmt>, defs: set<nat>, fewer: set<nat>)
    requires SingleDef(stmts, defs) && fewer <= defs
    ensures SingleDef(stmts, fewer)
  {
    if stmts != [] && !SuspendsStmt(stmts[0]) {
      SingleDefSmaller(stmts[1..], DefsAfter(stmts[0], defs), DefsAfter(stmts[0], fewer));
    }
  }

  lemma {:induction false} SingleDefSuffix(stmts: seq<Stmt>, defs: set<nat>, k: nat)
    requires SingleDef(stmts, defs) && k <= |stmts|
    ensures SingleDef(stmts[k..], {})
  {
    if k == 0 {
      assert stmts[0..] == stmts;
      SingleDefSmaller(stmts, defs, {});
    } else {
      SingleDefSuffix(stmts[1..], if SuspendsStmt(stmts[0]) then {} else DefsAfter(stmts[0], defs), k - 1);
      assert stmts[1..][k - 1..] == stmts[k..];
    }
  }

  // ----- what translated code reads -----

  function CirReads(s: CirStmt): set<nat> {
    match s case Assign(_, src) => ExprUses(src) case Emit(_, args) => ExprsUses(args) case _ => {}
  }

  ghost predicate VarsOf(vs: set<nat>, ls: set<nat>, pc: nat) {
    forall v :: v in vs ==> v >= pc && v - pc in ls
  }

  lemma {:induction false} VarExprsUses(ls: seq<nat>, pc: nat)
    ensures VarsOf(ExprsUses(VarExprs(ls, pc)), SetOf(ls), pc)
  {
    if ls != [] {
      assert VarExprs(ls, pc)[1..] == VarExprs(ls[1..], pc) && VarExprs(ls, pc)[0] == VarExpr(ls[0], pc);
      VarExprsUses(ls[1..], pc);
      assert forall l :: l in ls[1..] ==> l in ls;
      assert ls[0] in ls;
    }
  }

  lemma {:induction false} ConsUses(e: CirExpr, es: seq<CirExpr>)
    ensures ExprsUses([e] + es) == ExprUses(e) + ExprsUses(es)
  {
    assert ([e] + es)[1..] == es;
  }

  lemma {:induction false} OneUses(e: CirExpr)
    ensures ExprsUses([e]) == ExprUses(e)
  {
    ConsUses(e, []);
    assert [e] + [] == [e];
  }

  lemma {:induction false} StmtUses(s: Stmt, pc: nat)
    requires !SuspendsStmt(s)
    ensures VarsOf(CirReads(TranslateStmt(s, pc)), StmtReads(s), pc)
  {
    if s.Set? {
      if s.op.Send? {
        VarExprsUses(s.op.args, pc);
        ConsUses(VarExpr(s.op.actor, pc), VarExprs(s.op.args, pc));
      } else if s.op.Perform? {
        VarExprsUses(s.op.args, pc);
        assert forall l :: l in s.op.args ==> l in SetOf(s.op.args);
      } else if s.op.CallIndex? {
        VarExprsUses(s.op.args, pc);
      } else {
        assert forall l :: ExprUses(VarExpr(l, pc)) == {VarOf(l, pc)};
      }
    } else if s.EmitEvent? {
      VarExprsUses(s.args, pc);
    } else if s.StateSet? {
      OneUses(VarExpr(s.src, pc));
    }
  }

  lemma {:induction false} SuspendUses(op: RValue, pc: nat)
    requires Suspends(op)
    ensures VarsOf(ExprsUses(SuspendEffectAndArgs(op, pc).1), RValueReads(op), pc)
  {
    match op
    case Perform(_, _, args) => VarExprsUses(args, pc);
    case SignalWaitOp(name) => OneUses(ConstString(name));
    case ReceiveWait(_, n, t) =>
      OneUses(VarExpr(t, pc));
      ConsUses(ConstI64(n), [VarExpr(t, pc)]);
      assert [ConstI64(n)] + [VarExpr(t, pc)] == [ConstI64(n), VarExpr(t, pc)];
    case ReceiveMatch(_, n) => OneUses(ConstI64(n));
    case PerformAsyncOp(o, args) =>
      VarExprsUses(args, pc);
      ConsUses(ConstString(o), VarExprs(args, pc));
  }

  // ----- lowered blocks satisfy what frame insertion needs -----

  /** The MIR code of a segment prefix has no hidden reads once translated. */
  lemma {:induction false} TranslatedNoHidden(stmts: seq<Stmt>, defs: set<nat>, cdefs: set<nat>, pc: nat)
    requires SingleDef(stmts, defs)
    requires forall s :: s in stmts ==> !SuspendsStmt(s) && Fits(pc, s)
    requires forall v :: v in cdefs && v != FRAME_PTR_VAR ==> v >= pc && v - pc in defs
    ensures HiddenReads(TranslateAll(stmts, pc), cdefs) == {}
  {
    hide TranslateStmt, Fits;
    if stmts != [] {
      var s, c := stmts[0], TranslateStmt(stmts[0], pc);
      assert s in stmts;
      StmtUses(s, pc);
      TranslatedShape(s, pc);
      var defs' := DefsAfter(s, defs);
      var cdefs' := if c.Assign? then cdefs + {c.dst} else cdefs;
      assert TranslateAll(stmts, pc)[1..] == TranslateAll(stmts[1..], pc);
      TranslatedNoHidden(stmts[1..], defs', cdefs', pc);
      if c.Assign? && c.dst in cdefs {
        assert ExprUses(c.src) == {};
      }
    }
  }

  lemma {:induction false} ScanUsesBelow(stmts: seq<CirStmt>, ud: UseDef)
    requires FrameFree(stmts)
    requires forall v :: v in ud.uses ==> v < STATE_VAR
    requires forall s, v :: s in stmts && v in CirReads(s) ==> v < STATE_VAR
    ensures forall v :: v in ScanStmts(stmts, ud).uses ==> v < STATE_VAR
  {
    if stmts != [] {
      assert stmts[0] in stmts;
      assert ScanStmt(stmts[0], ud).uses <= ud.uses + CirReads(stmts[0]);
      ScanUsesBelow(stmts[1..], ScanStmt(stmts[0], ud));
    }
  }

  lemma {:induction false} TranslateAllMember(stmts: seq<Stmt>, pc: nat, c: CirStmt) returns (s: Stmt)
    requires c in TranslateAll(stmts, pc)
    ensures s in stmts && c == TranslateStmt(s, pc)
  {
    if c == TranslateStmt(stmts[0], pc) { s := stmts[0]; }
    else { s := TranslateAllMember(stmts[1..], pc, c); }
  }

  /** Facts about one segment of a compilable function. */
  ghost predicate GoodSegment(f: Function, s: Segment) {
    && SingleDef(s.stmts, {})
    && (forall x :: x in s.stmts ==> Fits(ParamCount(f), x))
    && (forall l :: l in TermReads(s.terminator) ==> VarOf(l, ParamCount(f)) < STATE_VAR)
    && (forall t :: t in TermTargets(s.terminator) ==> t < |f.blocks|)
  }

  lemma {:induction false} SegmentsGood(f: Function, used: set<nat>, s: Segment)
    requires Compilable(f, used) && Suffix(f, s)
    ensures GoodSegment(f, s)
  {
    hide SingleDef, Fits;
    var j, k :| 0 <= j < |f.blocks| && 0 <= k <= |f.blocks[j].stmts| && s == SuffixAt(f, j, k);
    var b := f.blocks[j];
    assert b in f.blocks;
    SingleDefSuffix(b.stmts, {}, k);
    assert forall x :: x in s.stmts ==> x in b.stmts;
  }

  /** One lowered block: frame-free, no hidden reads, reads below the reserved locals, targets in range. */
  ghost predicate GoodBlock(n: nat, total: nat, b: CirBlock) {
    && FrameFree(b.stmts) && NoHiddenReads(b)
    && (forall v :: v in BlockScan(b).uses ==> v < STATE_VAR)
    && (forall t :: t in DirectTargets(b.terminator) ==> t < n)
    && (b.terminator.SuspendAndYield? ==> n <= b.terminator.resumeBlock < total)
  }

  lemma {:induction false} SingleDefPrefix(stmts: seq<Stmt>, defs: set<nat>, k: nat)
    requires SingleDef(stmts, defs) && k <= |stmts|
    ensures SingleDef(stmts[..k], defs)
  {
    if k > 0 {
      SingleDefPrefix(stmts[1..], if SuspendsStmt(stmts[0]) then {} else DefsAfter(stmts[0], defs), k - 1);
      assert stmts[..k][1..] == stmts[1..][..k - 1];
    }
  }

  lemma {:induction false} TermBelow(f: Function, segs: seq<Segment>, s: Segment, t: CirTerminator)
    requires GoodSegment(f, s) && EndsWith(segs, |f.blocks|, s, t, ParamCount(f))
    ensures forall v :: v in TermUses(t) ==> v < STATE_VAR
    ensures forall x :: x in DirectTargets(t) ==> x < |f.blocks|
    ensures t.SuspendAndYield? ==> |f.blocks| <= t.resumeBlock < |segs|
  {
    var k := SplitAt(s.stmts);
    if k < |s.stmts| {
      var x, pc := s.stmts[k], ParamCount(f);
      assert x in s.stmts;
      SuspendUses(x.op, pc);
      forall v | v in TermUses(t) ensures v < STATE_VAR {
        assert v in ExprsUses(SuspendEffectAndArgs(x.op, pc).1);
        assert VarOf(v - pc, pc) == v && v - pc in StmtReads(x);
      }
    } else {
      assert DirectTargets(t) == TermTargets(s.terminator);
    }
  }

  lemma {:induction false} LoweredBlockGood(f: Function, segs: seq<Segment>, i: nat, b: CirBlock)
    requires i < |segs| && GoodSegment(f, segs[i]) && LoweredBlock(segs, |f.blocks|, i, b, ParamCount(f))
    ensures GoodBlock(|f.blocks|, |segs|, b)
  {
    hide EndsWith, SingleDef, HiddenReads, ScanStmts, TranslateAll, TranslateStmt, TermUses, DirectTargets;
    var s, pc := segs[i], ParamCount(f);
    var prefix := s.stmts[..SplitAt(s.stmts)];
    assert forall x :: x in prefix ==> x in s.stmts && !SuspendsStmt(x);
    TermBelow(f, segs, s, b.terminator);
    SingleDefPrefix(s.stmts, {}, SplitAt(s.stmts));
    TranslatedNoHidden(prefix, {}, {}, pc);
    forall c | c in b.stmts
      ensures c.Assign? || c.Emit?
      ensures forall v :: v in CirReads(c) ==> v < STATE_VAR
    {
      var x := TranslateAllMember(prefix, pc, c);
      StmtUses(x, pc);
      TranslatedShape(x, pc);
    }
    ScanUsesBelow(b.stmts, UseDef({}, {}));
  }

  lemma {:induction false} TranslatedShape(s: Stmt, pc: nat)
    ensures var c := TranslateStmt(s, pc);
            && (c.Assign? || c.Emit?)
            && (c.Assign? ==> (Defines(s) && c.dst == VarOf(s.dst, pc)) || (!Defines(s) && c.dst == FRAME_PTR_VAR && ExprUses(c.src) == {}))
            && (c.Emit? ==> !Defines(s))
            && (Fits(pc, s) && Defines(s) ==> VarOf(s.dst, pc) < STATE_VAR)
  {
  }

  lemma {:induction false} GoodBlocksSuspendable(blocks: seq<CirBlock>, n: nat, entry: nat)
    requires forall i :: 0 <= i < |blocks| ==> GoodBlock(n, |blocks|, blocks[i])
    requires OneSource(blocks) && entry < n <= |blocks|
    ensures Suspendable(blocks, entry)
  {
    hide BlockScan, NoHiddenReads, FrameFree;
    forall i, t | 0 <= i < |blocks| && t in Successors(blocks[i].terminator) ensures t < |blocks| {
      if !blocks[i].terminator.SuspendAndYield? { assert t in DirectTargets(blocks[i].terminator); }
    }
    forall i, j | 0 <= i < |blocks| && 0 <= j < |blocks| && i != j && blocks[i].terminator.SuspendAndYield?
      ensures !SuspendsTo(blocks[j], blocks[i].terminator.resumeBlock)
    {
      assert SuspendsTo(blocks[i], blocks[i].terminator.resumeBlock);
    }
    forall b | b in blocks ensures FrameFree(b.stmts) && NoHiddenReads(b) {
      var i :| 0 <= i < |blocks| && blocks[i] == b;
    }
  }

  /** The CIR that lowering produces is what frame insertion needs. */
  lemma {:induction false} LoweredIsSuspendable(f: Function, used: set<nat>, segs: seq<Segment>, blocks: seq<CirBlock>)
    requires Compilable(f, used) && Lowered(f, segs, blocks)
    ensures Suspendable(blocks, f.entry)
  {
    forall i | 0 <= i < |blocks| ensures GoodBlock(|f.blocks|, |blocks|, blocks[i]) {
      hide Compilable, Suffix, GoodSegment, GoodBlock, LoweredBlock, OneSource, EverySource;
      SegmentsGood(f, used, segs[i]);
      LoweredBlockGood(f, segs, i, blocks[i]);
    }
    hide Compilable, GoodBlock, Lowered, Suspendable, OneSource;
    LoweredOneSource(f, used, segs, blocks);
    GoodBlocksSuspendable(blocks, |f.blocks|, f.entry);
  }

  lemma {:induction false} LoweredOneSource(f: Function, used: set<nat>, segs: seq<Segment>, blocks: seq<CirBlock>)
    requires Compilable(f, used) && Lowered(f, segs, blocks)
    ensures OneSource(blocks) && f.entry < |f.blocks| <= |blocks|
  {
  }

  // ----- the whole compiler -----

  /** Lowers a function and inserts its frames. */
  method Compile(f: Function, ghost used: set<nat>) returns (framed: seq<CirBlock>, ghost blocks: seq<CirBlock>, ghost segs: seq<Segment>)
    requires Compilable(f, used)
    ensures Lowered(f, segs, blocks) && Framed(blocks, LiveIn(blocks), framed)
  {
    var lowered;
    lowered, segs := LowerBlocks(f);
    blocks := lowered;
    LoweredIsSuspendable(f, used, segs, blocks);
    var a := new CirBlock[|lowered|](i requires 0 <= i < |lowered| => lowered[i]);
    assert a[..] == lowered;
    ComputeLiveVars(a);
    framed := a[..];
  }

  /** End to end: for every host, and whatever survives of locals and memory at
      each suspend, the compiled function performs the events of the MIR
      function in order and returns its value. */
  lemma {:induction false} CompilerPreservesMeaning(f: Function, used: set<nat>, segs: seq<Segment>, blocks: seq<CirBlock>, framed: seq<CirBlock>,
                                 w: World, payload: (Trace, nat) -> Val, mst: Store, cst: Store, m: Mem, fuel: nat)
    requires Compilable(f, used) && Lowered(f, segs, blocks) && Framed(blocks, LiveIn(blocks), framed)
    requires Rel(used, ParamCount(f), mst, cst)
    ensures Matches(w.host, EnterMir(f, MirHost(w.host, payload), f.entry, mst, [], fuel),
                    FramedEnter(framed, w, f.entry, cst[STATE_VAR := f.entry], m, [], fuel))
  {
    hide Lowered, Framed, Suspendable, Matches, EnterMir, FramedEnter, Enter, Lowerable;
    LoweredIsSuspendable(f, used, segs, blocks);
    FramesPreserveMeaning(blocks, f.entry, framed, w, cst, m, fuel);
    LoweringSimulates(f, segs, blocks, MirHost(w.host, payload), used, mst, cst, fuel);
  }
}
