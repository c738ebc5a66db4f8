/** Live-variable analysis over CIR (src/cir_analysis.rs).

    `BlockUseDef` is the analysis' own summary of a block, `LiveBefore` the exact
    one, and `LiveIn` the path-based meaning of liveness that the fixed point
    computes. */
module Liveness {
  import opened Options
  import opened Cir

  // ----- block summaries -----

  datatype UseDef = UseDef(uses: set<nat>, defs: set<nat>)

  function SeqSet(vs: seq<nat>): set<nat> { set v | v in vs }

  /** One step of the block scan: a second assignment to a variable does not
      register the reads of its source. */
  function ScanStmt(s: CirStmt, ud: UseDef): UseDef {
    match s
    case Assign(dst, src) =>
      UseDef(if dst in ud.defs then ud.uses else ud.uses + ExprUses(src), ud.defs + {dst})
    case Emit(_, args) => ud.(uses := ud.uses + ExprsUses(args))
    case SaveFrame(vars, _, _) => ud.(uses := ud.uses + SeqSet(vars))
    case RestoreFrame(vars, _, _) => ud.(defs := ud.defs + SeqSet(vars))
  }

  function ScanStmts(stmts: seq<CirStmt>, ud: UseDef): UseDef {
    if stmts == [] then ud else ScanStmts(stmts[1..], ScanStmt(stmts[0], ud))
  }

  function TermUses(term: CirTerminator): set<nat> {
    match term
    case Return(Some(e)) => ExprUses(e)
    case Branch(c, _, _) => ExprUses(c)
    case SuspendAndYield(_, args, _, _, _) => ExprsUses(args)
    case Resume(e) => ExprUses(e)
    case _ => {}
  }

  function BlockScan(b: CirBlock): UseDef {
    var ud := ScanStmts(b.stmts, UseDef({}, {}));
    ud.(uses := ud.uses + TermUses(b.terminator))
  }

  function Successors(term: CirTerminator): seq<nat> {
    match term
    case Return(_) => []
    case Resume(_) => []
    case Jump(t) => [t]
    case Branch(_, t, f) => [t, f]
    case SuspendAndYield(_, _, r, _, _) => [r]
  }

  method BlockUseDef(b: CirBlock) returns (uses: set<nat>, defs: set<nat>)
    ensures UseDef(uses, defs) == BlockScan(b)
  {
    uses, defs := {}, {};
    var i := 0;
    while i < |b.stmts|
      invariant 0 <= i <= |b.stmts|
      invariant ScanStmts(b.stmts[i..], UseDef(uses, defs)) == ScanStmts(b.stmts, UseDef({}, {}))
    {
      match b.stmts[i] {
        case Assign(dst, src) =>
          if dst !in defs { uses := uses + ExprUses(src); }
          defs := defs + {dst};
        case Emit(_, args) => uses := uses + ExprsUses(args);
        case SaveFrame(vars, _, _) => uses := uses + SeqSet(vars);
        case RestoreFrame(vars, _, _) => defs := defs + SeqSet(vars);
      }
      i := i + 1;
    }
    uses := uses + TermUses(b.terminator);
  }

  // ----- exact liveness inside a block -----

  /** Variables whose value before `stmts` can matter, when those in `after` can matter afterwards. */
  function LiveBefore(stmts: seq<CirStmt>, after: set<nat>): set<nat> {
    if stmts == [] then after
    else
      var rest := LiveBefore(stmts[1..], after);
      match stmts[0]
      case Assign(dst, src) => ExprUses(src) + (rest - {dst})
      case Emit(_, args) => ExprsUses(args) + rest
      case SaveFrame(vars, _, _) => SeqSet(vars) + rest
      case RestoreFrame(vars, _, _) => rest - SeqSet(vars)
  }

  /** Reads that the block scan skips: sources of repeated assignments, of
      variables the block has not defined before. */
  function HiddenReads(stmts: seq<CirStmt>, defs: set<nat>): set<nat> {
    if stmts == [] then {}
    else
      match stmts[0]
      case Assign(dst, src) =>
        (if dst in defs then ExprUses(src) - defs else {}) + HiddenReads(stmts[1..], defs + {dst})
      case RestoreFrame(vars, _, _) => HiddenReads(stmts[1..], defs + SeqSet(vars))
      case _ => HiddenReads(stmts[1..], defs)
  }

  /** The scan of a block misses no read exactly when its hidden reads are registered elsewhere in the block. */
  predicate NoHiddenReads(b: CirBlock) {
    HiddenReads(b.stmts, {}) <= BlockScan(b).uses
  }

  lemma {:induction false} ScanBoundsLiveBefore(stmts: seq<CirStmt>, ud: UseDef, after: set<nat>)
    ensures var r := ScanStmts(stmts, ud);
            && ud.uses <= r.uses && ud.defs <= r.defs
            && LiveBefore(stmts, after) - ud.defs <= r.uses + HiddenReads(stmts, ud.defs) + (after - r.defs)
  {
    if stmts != [] {
      var ud' := ScanStmt(stmts[0], ud);
      ScanBoundsLiveBefore(stmts[1..], ud', after);
      var rest, r := LiveBefore(stmts[1..], after), ScanStmts(stmts, ud);
      assert rest - ud'.defs <= r.uses + HiddenReads(stmts[1..], ud'.defs) + (after - r.defs);
      match stmts[0]
      case Assign(dst, src) =>
        assert LiveBefore(stmts, after) - ud.defs == (ExprUses(src) - ud.defs) + (rest - ud'.defs);
      case Emit(_, args) =>
        assert LiveBefore(stmts, after) - ud.defs == (ExprsUses(args) - ud.defs) + (rest - ud.defs);
      case SaveFrame(vars, _, _) =>
        assert LiveBefore(stmts, after) - ud.defs == (SeqSet(vars) - ud.defs) + (rest - ud.defs);
      case RestoreFrame(vars, _, _) =>
        assert LiveBefore(stmts, after) - ud.defs == rest - ud'.defs;
    }
  }

  lemma {:induction false} HiddenReadsAreLive(stmts: seq<CirStmt>, defs: set<nat>, after: set<nat>)
    ensures HiddenReads(stmts, defs) <= LiveBefore(stmts, after) - defs
  {
    if stmts != [] {
      match stmts[0]
      case Assign(dst, src) => HiddenReadsAreLive(stmts[1..], defs + {dst}, after);
      case RestoreFrame(vars, _, _) => HiddenReadsAreLive(stmts[1..], defs + SeqSet(vars), after);
      case _ => HiddenReadsAreLive(stmts[1..], defs, after);
    }
  }

  /** The block scan covers every variable the block reads before defining it
      if and only if no read is hidden. */
  lemma {:induction false} ScanCoversExposedReads(b: CirBlock)
    ensures LiveBefore(b.stmts, TermUses(b.terminator)) <= BlockScan(b).uses <==> NoHiddenReads(b)
  {
    var exposed := LiveBefore(b.stmts, TermUses(b.terminator));
    ScanBoundsLiveBefore(b.stmts, UseDef({}, {}), TermUses(b.terminator));
    assert exposed - {} == exposed;
    HiddenReadsAreLive(b.stmts, {}, TermUses(b.terminator));
  }

  /** The transfer function of the analysis over-approximates the exact one on blocks without hidden reads. */
  lemma {:induction false} TransferCoversLiveBefore(b: CirBlock, out: set<nat>)
    requires NoHiddenReads(b)
    ensures var ud := BlockScan(b);
            LiveBefore(b.stmts, TermUses(b.terminator) + out) <= ud.uses + (out - ud.defs)
  {
    var live := LiveBefore(b.stmts, TermUses(b.terminator) + out);
    ScanBoundsLiveBefore(b.stmts, UseDef({}, {}), TermUses(b.terminator) + out);
    assert live - {} == live;
  }

  // ----- liveness across blocks -----

  predicate ValidTargets(blocks: seq<CirBlock>) {
    forall i, t :: 0 <= i < |blocks| && t in Successors(blocks[i].terminator) ==> t < |blocks|
  }

  function OutSet(ins: seq<set<nat>>, succs: seq<nat>): set<nat> {
    set s, v | s in succs && s < |ins| && v in ins[s] :: v
  }

  function Transfer(b: CirBlock, ins: seq<set<nat>>): set<nat> {
    var ud := BlockScan(b);
    ud.uses + (OutSet(ins, Successors(b.terminator)) - ud.defs)
  }

  /** `v` is read in the last block of the path `p` and defined in none before it. */
  ghost predicate LiveVia(blocks: seq<CirBlock>, v: nat, p: seq<nat>) {
    && p != [] && p[0] < |blocks|
    && var ud := BlockScan(blocks[p[0]]);
       if |p| == 1 then v in ud.uses
       else v !in ud.defs && p[1] in Successors(blocks[p[0]].terminator) && LiveVia(blocks, v, p[1..])
  }

  ghost predicate LiveAt(blocks: seq<CirBlock>, i: nat, v: nat) {
    exists p :: LiveVia(blocks, v, p) && p[0] == i
  }

  function AllUses(blocks: seq<CirBlock>): set<nat> {
    set i, v | 0 <= i < |blocks| && v in BlockScan(blocks[i]).uses :: v
  }

  /** The meaning of `in[i]`: variables read on some path from `i` before being defined on it. */
  ghost function LiveIn(blocks: seq<CirBlock>): (ins: seq<set<nat>>)
    ensures |ins| == |blocks|
  {
    seq(|blocks|, i requires 0 <= i => set v | v in AllUses(blocks) && LiveAt(blocks, i, v))
  }

  ghost predicate PreSolution(blocks: seq<CirBlock>, ins: seq<set<nat>>) {
    |ins| == |blocks| && forall i :: 0 <= i < |blocks| ==> Transfer(blocks[i], ins) <= ins[i]
  }

  ghost predicate Solution(blocks: seq<CirBlock>, ins: seq<set<nat>>) {
    |ins| == |blocks| && forall i :: 0 <= i < |blocks| ==> ins[i] == Transfer(blocks[i], ins)
  }

  lemma {:induction false} LiveViaIsUse(blocks: seq<CirBlock>, v: nat, p: seq<nat>)
    requires LiveVia(blocks, v, p)
    ensures v in AllUses(blocks)
  {
    if |p| > 1 { LiveViaIsUse(blocks, v, p[1..]); }
  }

  /** Path liveness satisfies the dataflow equations. */
  lemma {:induction false} LiveInIsSolution(blocks: seq<CirBlock>)
    ensures Solution(blocks, LiveIn(blocks))
  {
    var ins := LiveIn(blocks);
    forall i | 0 <= i < |blocks|
      ensures ins[i] == Transfer(blocks[i], ins)
    {
      var ud, succs := BlockScan(blocks[i]), Successors(blocks[i].terminator);
      forall v | v in Transfer(blocks[i], ins) ensures v in ins[i] {
        if v in ud.uses {
          assert LiveVia(blocks, v, [i]);
          LiveViaIsUse(blocks, v, [i]);
        } else {
          var s :| s in succs && s < |ins| && v in ins[s];
          var p :| LiveVia(blocks, v, p) && p[0] == s;
          assert ([i] + p)[1..] == p;
          assert LiveVia(blocks, v, [i] + p) && ([i] + p)[0] == i;
          LiveViaIsUse(blocks, v, [i] + p);
        }
      }
      forall v | v in ins[i] ensures v in Transfer(blocks[i], ins) {
        var p :| LiveVia(blocks, v, p) && p[0] == i;
        if |p| > 1 {
          LiveViaIsUse(blocks, v, p[1..]);
          assert LiveVia(blocks, v, p[1..]) && p[1..][0] == p[1];
          assert p[1] in succs && p[1] < |ins| && v in ins[p[1]];
        }
      }
    }
  }

  lemma {:induction false} LiveViaBelow(blocks: seq<CirBlock>, ins: seq<set<nat>>, v: nat, p: seq<nat>)
    requires PreSolution(blocks, ins) && LiveVia(blocks, v, p)
    ensures v in ins[p[0]]
  {
    assert Transfer(blocks[p[0]], ins) <= ins[p[0]];
    if |p| > 1 { LiveViaBelow(blocks, ins, v, p[1..]); }
  }

  /** It is the least solution, even among pre-solutions. */
  lemma {:induction false} LiveInIsLeast(blocks: seq<CirBlock>, ins: seq<set<nat>>)
    requires PreSolution(blocks, ins)
    ensures forall i :: 0 <= i < |blocks| ==> LiveIn(blocks)[i] <= ins[i]
  {
    forall i, v | 0 <= i < |blocks| && v in LiveIn(blocks)[i]
      ensures v in ins[i]
    {
      var p :| LiveVia(blocks, v, p) && p[0] == i;
      LiveViaBelow(blocks, ins, v, p);
    }
  }

  // ----- the fixed point -----

  function Total(ss: seq<set<nat>>): nat {
    if ss == [] then 0 else |ss[0]| + Total(ss[1..])
  }

  lemma {:induction false} TotalUpdate(ss: seq<set<nat>>, i: nat, s: set<nat>)
    requires i < |ss|
    ensures Total(ss[i := s]) == Total(ss) - |ss[i]| + |s|
  {
    if i == 0 {
      assert ss[i := s][1..] == ss[1..];
    } else {
      assert ss[i := s][1..] == ss[1..][i - 1 := s];
      TotalUpdate(ss[1..], i - 1, s);
    }
  }

  lemma {:induction false} SubsetCard(a: set<nat>, b: set<nat>)
    requires a <= b
    ensures |a| <= |b| && (a != b ==> |a| < |b|)
  {
    assert b == a + (b - a);
    if a != b { var x :| x in b && x !in a; assert x in b - a; }
  }

  lemma {:induction false} TotalBound(ss: seq<set<nat>>, vs: set<nat>)
    requires forall i :: 0 <= i < |ss| ==> ss[i] <= vs
    ensures Total(ss) <= |ss| * |vs|
  {
    if ss != [] {
      SubsetCard(ss[0], vs);
      TotalBound(ss[1..], vs);
      assert |ss| * |vs| == |vs| + |ss[1..]| * |vs|;
    }
  }

  /** Sets found so far: below the path meaning, and below the next iterate. */
  ghost predicate Iterate(blocks: seq<CirBlock>, ins: seq<set<nat>>, outs: seq<set<nat>>) {
    && |ins| == |outs| == |blocks|
    && (forall i :: 0 <= i < |blocks| ==> ins[i] <= LiveIn(blocks)[i] && ins[i] <= Transfer(blocks[i], ins))
    && (forall i :: 0 <= i < |blocks| ==> outs[i] <= OutSet(ins, Successors(blocks[i].terminator)))
  }

  ghost predicate Below(a: seq<set<nat>>, b: seq<set<nat>>) {
    |a| == |b| && forall i :: 0 <= i < |a| ==> a[i] <= b[i]
  }

  lemma {:induction false} TransferMonotone(b: CirBlock, x: seq<set<nat>>, y: seq<set<nat>>)
    requires Below(x, y)
    ensures OutSet(x, Successors(b.terminator)) <= OutSet(y, Successors(b.terminator))
    ensures Transfer(b, x) <= Transfer(b, y)
  {
    forall v | v in OutSet(x, Successors(b.terminator)) ensures v in OutSet(y, Successors(b.terminator)) {
      var s :| s in Successors(b.terminator) && s < |x| && v in x[s];
      assert v in y[s];
    }
  }

  /** Replacing one entry by its next iterate only grows it and keeps the invariant. */
  lemma {:induction false} IterateStep(blocks: seq<CirBlock>, ins: seq<set<nat>>, outs: seq<set<nat>>, i: nat)
    requires Iterate(blocks, ins, outs) && i < |blocks|
    ensures var inp, out := Transfer(blocks[i], ins), OutSet(ins, Successors(blocks[i].terminator));
            && ins[i] <= inp && outs[i] <= out
            && Iterate(blocks, ins[i := inp], outs[i := out])
            && Total(ins[i := inp]) == Total(ins) - |ins[i]| + |inp|
            && Total(outs[i := out]) == Total(outs) - |outs[i]| + |out|
            && |ins[i]| <= |inp| && |outs[i]| <= |out|
            && (inp != ins[i] || out != outs[i] ==> |ins[i]| + |outs[i]| < |inp| + |out|)
  {
    hide BlockScan, LiveIn;
    var inp, out := Transfer(blocks[i], ins), OutSet(ins, Successors(blocks[i].terminator));
    var ins' := ins[i := inp];
    SubsetCard(ins[i], inp);
    SubsetCard(outs[i], out);
    TotalUpdate(ins, i, inp);
    TotalUpdate(outs, i, out);
    LiveInIsSolution(blocks);
    TransferMonotone(blocks[i], ins, LiveIn(blocks));
    forall j | 0 <= j < |blocks|
      ensures ins'[j] <= Transfer(blocks[j], ins')
      ensures outs[i := out][j] <= OutSet(ins', Successors(blocks[j].terminator))
    {
      TransferMonotone(blocks[j], ins, ins');
    }
  }

  lemma {:induction false} IterateLengths(blocks: seq<CirBlock>, ins: seq<set<nat>>, outs: seq<set<nat>>)
    requires Iterate(blocks, ins, outs)
    ensures |ins| == |outs| == |blocks|
  {
  }

  lemma {:induction false} IterateBound(blocks: seq<CirBlock>, ins: seq<set<nat>>, outs: seq<set<nat>>)
    requires Iterate(blocks, ins, outs)
    ensures Total(ins) + Total(outs) <= 2 * (|blocks| * |AllUses(blocks)|)
  {
    var all := AllUses(blocks);
    assert Below(ins, seq(|blocks|, _ => all));
    assert forall i :: 0 <= i < |blocks| ==> outs[i] <= OutSet(ins, Successors(blocks[i].terminator)) <= all;
    TotalBound(ins, all);
    TotalBound(outs, all);
  }

  /** Summaries of all blocks, as the analysis tabulates them. */
  ghost predicate Tabulated(blocks: seq<CirBlock>, uses: seq<set<nat>>, defs: seq<set<nat>>, succs: seq<seq<nat>>) {
    && |uses| == |defs| == |succs| <= |blocks|
    && forall j :: 0 <= j < |uses| ==>
         UseDef(uses[j], defs[j]) == BlockScan(blocks[j]) && succs[j] == Successors(blocks[j].terminator)
  }

  method Tabulate(blocks: seq<CirBlock>) returns (uses: seq<set<nat>>, defs: seq<set<nat>>, succs: seq<seq<nat>>)
    ensures Tabulated(blocks, uses, defs, succs) && |uses| == |blocks|
  {
    uses, defs, succs := [], [], [];
    for k := 0 to |blocks|
      invariant |uses| == k && Tabulated(blocks, uses, defs, succs)
    {
      var u, d := BlockUseDef(blocks[k]);
      uses, defs, succs := uses + [u], defs + [d], succs + [Successors(blocks[k].terminator)];
    }
  }

  lemma {:induction false} StableIterateIsLiveIn(blocks: seq<CirBlock>, ins: seq<set<nat>>, outs: seq<set<nat>>)
    requires Iterate(blocks, ins, outs) && Solution(blocks, ins)
    ensures ins == LiveIn(blocks)
  {
    LiveInIsLeast(blocks, ins);
    assert forall i :: 0 <= i < |blocks| ==> ins[i] == LiveIn(blocks)[i];
  }

  method Union(ins: seq<set<nat>>, succs: seq<nat>) returns (out: set<nat>)
    requires forall s :: s in succs ==> s < |ins|
    ensures out == OutSet(ins, succs)
  {
    out := {};
    for k := 0 to |succs|
      invariant out == OutSet(ins, succs[..k])
    {
      assert succs[k] in succs;
      assert succs[..k + 1] == succs[..k] + [succs[k]];
      out := out + ins[succs[k]];
    }
    assert succs[..|succs|] == succs;
  }

  ghost predicate SolvedFrom(blocks: seq<CirBlock>, ins: seq<set<nat>>, i: nat) {
    |ins| == |blocks| && forall j :: i <= j < |blocks| ==> ins[j] == Transfer(blocks[j], ins)
  }

  lemma {:induction false} SolvedNone(blocks: seq<CirBlock>, ins: seq<set<nat>>)
    requires |ins| == |blocks|
    ensures SolvedFrom(blocks, ins, |blocks|)
  {
  }

  lemma {:induction false} SolvedMore(blocks: seq<CirBlock>, ins: seq<set<nat>>, i: nat)
    requires i < |blocks| && SolvedFrom(blocks, ins, i + 1) && ins[i] == Transfer(blocks[i], ins)
    ensures SolvedFrom(blocks, ins, i)
  {
  }

  lemma {:induction false} SolvedAll(blocks: seq<CirBlock>, ins: seq<set<nat>>)
    requires SolvedFrom(blocks, ins, 0)
    ensures Solution(blocks, ins)
  {
  }

  lemma {:induction false} TransferOf(b: CirBlock, ins: seq<set<nat>>, uses: set<nat>, defs: set<nat>)
    requires UseDef(uses, defs) == BlockScan(b)
    ensures Transfer(b, ins) == uses + (OutSet(ins, Successors(b.terminator)) - defs)
  {
  }

  /** One round over all blocks, last to first. */
  method Sweep(blocks: seq<CirBlock>, uses: seq<set<nat>>, defs: seq<set<nat>>, succs: seq<seq<nat>>,
               ins0: seq<set<nat>>, outs0: seq<set<nat>>)
    returns (ins: seq<set<nat>>, outs: seq<set<nat>>, changed: bool)
    requires ValidTargets(blocks) && Tabulated(blocks, uses, defs, succs) && |uses| == |blocks|
    requires Iterate(blocks, ins0, outs0)
    ensures Iterate(blocks, ins, outs)
    ensures changed ==> Total(ins) + Total(outs) > Total(ins0) + Total(outs0)
    ensures !changed ==> ins == ins0 && outs == outs0 && Solution(blocks, ins)
  {
    IterateLengths(blocks, ins0, outs0);
    SolvedNone(blocks, ins0);
    hide Iterate, Transfer, OutSet, BlockScan, SolvedFrom, Solution;
    ins, outs, changed := ins0, outs0, false;
    for i := |blocks| downto 0
      invariant |ins| == |outs| == |blocks| && Iterate(blocks, ins, outs)
      invariant changed ==> Total(ins) + Total(outs) > Total(ins0) + Total(outs0)
      invariant !changed ==> ins == ins0 && outs == outs0
      invariant !changed ==> SolvedFrom(blocks, ins, i)
    {
      var out := Union(ins, succs[i]);
      var inp := uses[i] + (out - defs[i]);
      TransferOf(blocks[i], ins, uses[i], defs[i]);
      IterateStep(blocks, ins, outs, i);
      if inp != ins[i] || out != outs[i] {
        ins, outs := ins[i := inp], outs[i := out];
        changed := true;
      }
      if !changed { SolvedMore(blocks, ins, i); }
    }
    if !changed { SolvedAll(blocks, ins); }
  }

  /** The fixed-point loop of `compute_live_vars`: it computes exactly path
      liveness, within a number of rounds bounded by blocks times variables. */
  method LiveSets(blocks: seq<CirBlock>) returns (ins: seq<set<nat>>, rounds: nat)
    requires ValidTargets(blocks)
    ensures ins == LiveIn(blocks)
    ensures rounds <= 2 * (|blocks| * |AllUses(blocks)|) + 1
  {
    var uses, defs, succs := Tabulate(blocks);
    ins := seq(|blocks|, _ => {});
    var outs: seq<set<nat>> := seq(|blocks|, _ => {});
    rounds := 0;
    var changed := true;
    IterateBound(blocks, ins, outs);
    while changed
      invariant Iterate(blocks, ins, outs)
      invariant rounds <= Total(ins) + Total(outs) + (if changed then 0 else 1)
      invariant Total(ins) + Total(outs) <= 2 * (|blocks| * |AllUses(blocks)|)
      invariant !changed ==> Solution(blocks, ins)
      decreases changed, 2 * (|blocks| * |AllUses(blocks)|) - Total(ins) - Total(outs)
    {
      ins, outs, changed := Sweep(blocks, uses, defs, succs, ins, outs);
      rounds := rounds + 1;
      IterateBound(blocks, ins, outs);
    }
    StableIterateIsLiveIn(blocks, ins, outs);
  }

  // ----- liveness is enough to determine a run -----

  ghost predicate FrameFree(stmts: seq<CirStmt>) {
    forall s :: s in stmts ==> s.Assign? || s.Emit?
  }

  /** What the semantic results below ask of a function. */
  ghost predicate Analysable(blocks: seq<CirBlock>) {
    forall b :: b in blocks ==> FrameFree(b.stmts) && NoHiddenReads(b)
  }

  function After(term: CirTerminator, ins: seq<set<nat>>): set<nat> {
    TermUses(term) + OutSet(ins, Successors(term))
  }

  lemma {:induction false} StmtAgree(h: Host, s: CirStmt, rest: seq<CirStmt>, after: set<nat>, a: Store, b: Store, tr: Trace)
    requires s.Assign? || s.Emit?
    requires Agree(a, b, LiveBefore([s] + rest, after))
    ensures ExecStmt(h, s, a, tr).1 == ExecStmt(h, s, b, tr).1
    ensures Agree(ExecStmt(h, s, a, tr).0, ExecStmt(h, s, b, tr).0, LiveBefore(rest, after))
  {
    assert ([s] + rest)[1..] == rest;
    match s
    case Assign(dst, src) =>
      EvalExprAgree(h, src, a, b, tr);
      AgreeUpdate(a, b, LiveBefore(rest, after), dst, EvalExpr(h, src, a, tr).0);
    case Emit(_, args) => EvalExprsAgree(h, args, a, b, tr);
  }

  lemma {:induction false} EntryCovered(blocks: seq<CirBlock>, ins: seq<set<nat>>, t: nat)
    requires PreSolution(blocks, ins) && Analysable(blocks) && t < |blocks|
    ensures LiveBefore(blocks[t].stmts, After(blocks[t].terminator, ins)) <= ins[t]
  {
    TransferCoversLiveBefore(blocks[t], OutSet(ins, Successors(blocks[t].terminator)));
  }

  /** Two stores that agree on the live variables run identically: same events, same result, at every fuel. */
  lemma {:induction false} RunAgree(blocks: seq<CirBlock>, h: Host, ins: seq<set<nat>>,
                                    stmts: seq<CirStmt>, term: CirTerminator, a: Store, b: Store, tr: Trace, fuel: nat)
    requires PreSolution(blocks, ins) && Analysable(blocks) && FrameFree(stmts)
    requires Agree(a, b, LiveBefore(stmts, After(term, ins)))
    ensures Run(blocks, h, stmts, term, a, tr, fuel) == Run(blocks, h, stmts, term, b, tr, fuel)
    decreases fuel, 1 + |stmts|
  {
    if stmts != [] {
      assert stmts == [stmts[0]] + stmts[1..];
      StmtAgree(h, stmts[0], stmts[1..], After(term, ins), a, b, tr);
      var (a1, tr1) := ExecStmt(h, stmts[0], a, tr);
      var b1 := ExecStmt(h, stmts[0], b, tr).0;
      RunAgree(blocks, h, ins, stmts[1..], term, a1, b1, tr1, fuel);
    } else {
      match term
      case Return(None) =>
      case Return(Some(e)) => EvalExprAgree(h, e, a, b, tr);
      case Resume(e) => EvalExprAgree(h, e, a, b, tr);
      case Jump(t) => EnterAgree(blocks, h, ins, t, a, b, tr, fuel);
      case Branch(c, t, f) =>
        EvalExprAgree(h, c, a, b, tr);
        var (v, tr1) := EvalExpr(h, c, a, tr);
        EnterAgree(blocks, h, ins, if v != TagBool(false) then t else f, a, b, tr1, fuel);
      case SuspendAndYield(effect, args, r, dst, _) =>
        EvalExprsAgree(h, args, a, b, tr);
        var (vs, tr1) := EvalExprs(h, args, a, tr);
        var tr2 := tr1 + [Suspended(effect, vs)];
        if r < |blocks| { AgreeUpdate(a, b, ins[r], dst, h.reply(tr2)); }
        EnterAgree(blocks, h, ins, r, a[dst := h.reply(tr2)], b[dst := h.reply(tr2)], tr2, fuel);
    }
  }

  lemma {:induction false} EnterAgree(blocks: seq<CirBlock>, h: Host, ins: seq<set<nat>>,
                                      t: nat, a: Store, b: Store, tr: Trace, fuel: nat)
    requires PreSolution(blocks, ins) && Analysable(blocks)
    requires t < |blocks| ==> Agree(a, b, ins[t])
    ensures Enter(blocks, h, t, a, tr, fuel) == Enter(blocks, h, t, b, tr, fuel)
    decreases fuel, 0
  {
    if fuel > 0 && t < |blocks| {
      assert blocks[t] in blocks;
      EntryCovered(blocks, ins, t);
      RunAgree(blocks, h, ins, blocks[t].stmts, blocks[t].terminator, a, b, tr, fuel - 1);
    }
  }
}
