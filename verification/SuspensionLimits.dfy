/** Where the suspension compiler does not preserve meaning, with the exact local condition for each gap. */
module SuspensionLimits {
  import opened Options
  import opened Cir
  import opened Mir
  import opened Liveness
  import opened Frames
  import opened Lowering
  import opened LoweringSim

  // ----- a read hidden by a second assignment is not saved -----

  /** One MIR block: local 0 is set and asked about, then local 1 is assigned
      twice, the second time from local 0, and returned. */
  function HiddenReadFunction(): Function {
    Function([], [], [Block(0,
      [Set(0, Const(IntConst(5))), Set(2, Perform("LLM", "ask", [0])), Set(1, Const(NilConst)), Set(1, Load(0))],
      Ret(Some(1)))], 0)
  }

  const FIVE: Val := TagInt(5)

  function HiddenReadBlocks(): seq<CirBlock> {
    [CirBlock(0, [Assign(0, ConstI64(FIVE))], SuspendAndYield(LlmAsk, [Var(0)], 1, 2, [])),
     CirBlock(1, [Assign(1, ConstNil), Assign(1, Var(0))], Return(Some(Var(1))))]
  }

  function HiddenReadSegments(): seq<Segment> {
    var b := HiddenReadFunction().blocks[0];
    [Segment(b.stmts, b.terminator), Segment(b.stmts[2..], b.terminator)]
  }

  const ASKED: Trace := [Suspended(LlmAsk, [FIVE])]

  lemma {:induction false} HiddenReadSplit()
    ensures var stmts := HiddenReadFunction().blocks[0].stmts;
            SplitAt(stmts) == 1 && SplitAt(stmts[2..]) == 2 && SuspendCount(stmts) == 1
  {
    var stmts := HiddenReadFunction().blocks[0].stmts;
    assert KindOf("LLM", "ask") == AskOp;
    assert !SuspendsStmt(stmts[0]) && SuspendsStmt(stmts[1]) && !SuspendsStmt(stmts[2]) && !SuspendsStmt(stmts[3]);
    assert SuspendCount(stmts[4..]) == 0;
    assert stmts[3..][1..] == stmts[4..] && stmts[2..][1..] == stmts[3..] && stmts[1..][1..] == stmts[2..];
    assert SuspendCount(stmts[3..]) == 0 && SuspendCount(stmts[2..]) == 0 && SuspendCount(stmts[1..]) == 1;
    var tail := stmts[2..];
    assert SplitAt(tail[1..][1..]) == 0;
    assert SplitAt(tail[1..]) == 1;
  }

  /** These blocks are what lowering makes of the function. */
  lemma {:induction false} HiddenReadLowered()
    ensures Lowered(HiddenReadFunction(), HiddenReadSegments(), HiddenReadBlocks())
  {
    var f, segs, blocks := HiddenReadFunction(), HiddenReadSegments(), HiddenReadBlocks();
    var stmts := f.blocks[0].stmts;
    HiddenReadSplit();
    assert TotalSuspends(f.blocks[1..]) == 0;
    assert VarExprs([0], 0) == [Var(0)];
    assert stmts[..1] == [stmts[0]] && [stmts[0]][1..] == [];
    assert TranslateAll([], 0) == [];
    assert TranslateAll(stmts[..1], 0) == [TranslateStmt(stmts[0], 0)] + TranslateAll([], 0);
    assert LoweredBlock(segs, 1, 0, blocks[0], 0);
    var tail := stmts[2..];
    assert tail[..2] == [tail[0], tail[1]] && tail[..2][1..] == [tail[1]] && [tail[1]][1..] == [];
    assert TranslateAll([tail[1]], 0) == [TranslateStmt(tail[1], 0)] + TranslateAll([], 0);
    assert TranslateAll(tail[..2], 0) == [TranslateStmt(tail[0], 0)] + TranslateAll([tail[1]], 0);
    assert LoweredBlock(segs, 1, 1, blocks[1], 0);
    assert SuspendsTo(blocks[0], 1);
    assert stmts[0..] == stmts;
    assert segs[0] == SuffixAt(f, 0, 0) && segs[1] == SuffixAt(f, 0, 2);
  }

  /** MIR returns what it asked about. */
  lemma {:induction false} HiddenReadMir(mh: MirHost)
    ensures EnterMir(HiddenReadFunction(), mh, 0, map[], [], 2) == MFinished([LlmAsked([FIVE])], FIVE)
    ensures EraseAll(mh.host, [LlmAsked([FIVE])]) == ASKED
  {
    var f, h := HiddenReadFunction(), mh.host;
    var stmts, term := f.blocks[0].stmts, f.blocks[0].terminator;
    var es := [LlmAsked([FIVE])];
    assert KindOf("LLM", "ask") == AskOp;
    assert es[..0] == [];
    assert EraseAll(h, es) == EraseAll(h, []) + [Suspended(LlmAsk, [FIVE])];
    var st0: Store := map[0 := FIVE];
    assert GetAll(st0, [0]) == [FIVE];
    assert [] + es == es;
    var st1 := st0[2 := h.reply(ASKED)];
    var st2 := st1[1 := TAG_NIL];
    var st3 := st2[1 := FIVE];
    assert stmts[1..][1..] == stmts[2..] && stmts[2..][1..] == stmts[3..] && stmts[3..][1..] == [];
    assert RunMir(f, mh, [], term, st3, es, 0) == MFinished(es, FIVE);
    assert RunMir(f, mh, stmts[3..], term, st2, es, 0) == MFinished(es, FIVE);
    assert RunMir(f, mh, stmts[2..], term, st1, es, 0) == MFinished(es, FIVE);
    assert SuspendsStmt(stmts[1..][0]) && SuspendEvent(stmts[1].op, st0) == es[0];
    RunMirSuspends(f, mh, stmts[1..], term, st0, [], 1);
    assert stmts[1..][0] == stmts[1] && stmts[1].dst == 2 && PayloadCount(stmts[1].op) == 0;
    assert [] + [SuspendEvent(stmts[1].op, st0)] == es && EraseAll(h, es) == ASKED;
    assert WritePayload(mh, ASKED, st1, 2, 0) == st1;
    assert RunMir(f, mh, stmts[1..], term, st0, [], 1) == MFinished(es, FIVE);
    assert RunMir(f, mh, stmts, term, map[], [], 1) == MFinished(es, FIVE);
  }

  /** A host that leaves 7 in variable 0 after a suspend. */
  function SevenLeft(h: Host): World {
    World(h, _ => 0, _ => map[0 := 7], _ => map[])
  }

  lemma {:induction false} HiddenReadScan()
    ensures BlockScan(HiddenReadBlocks()[1]) == UseDef({1}, {1})
    ensures !NoHiddenReads(HiddenReadBlocks()[1])
  {
    var b := HiddenReadBlocks()[1];
    var s0, s1 := Assign(1, ConstNil), Assign(1, Var(0));
    assert b.stmts[1..] == [s1] && [s1][1..] == [];
    assert ScanStmt(s0, UseDef({}, {})) == UseDef({}, {1});
    assert ScanStmt(s1, UseDef({}, {1})) == UseDef({}, {1});
    assert ScanStmts([s1], UseDef({}, {1})) == UseDef({}, {1});
    assert ScanStmts(b.stmts, UseDef({}, {})) == UseDef({}, {1});
    assert HiddenReads([], {1}) == {};
    assert HiddenReads([s1], {} + {1}) == {0};
    assert HiddenReads(b.stmts, {}) == {} + {0};
  }

  /** The analysis does not save variable 0 across the suspend. */
  lemma {:induction false} HiddenReadNotSaved()
    ensures 0 !in SavedVars(HiddenReadBlocks()[0].terminator, LiveIn(HiddenReadBlocks()))
    ensures 1 in SavedVars(HiddenReadBlocks()[0].terminator, LiveIn(HiddenReadBlocks()))
    ensures forall v :: v in SavedVars(HiddenReadBlocks()[0].terminator, LiveIn(HiddenReadBlocks())) ==> v == 1
  {
    var blocks := HiddenReadBlocks();
    HiddenReadScan();
    assert Successors(blocks[1].terminator) == [];
    forall v | v in LiveIn(blocks)[1] ensures v == 1 {
      var p :| LiveVia(blocks, v, p) && p[0] == 1;
      assert |p| == 1;
    }
    assert LiveVia(blocks, 1, [1]);
    assert LiveAt(blocks, 1, 1);
    assert 1 in BlockScan(blocks[1]).uses;
  }

  /** Restoring the frame leaves variable 0 as the host left it. */
  lemma {:induction false} HiddenReadRestored(h: Host, vs: seq<nat>, locals: Store, m: Mem, tr: Trace)
    requires forall v :: v in vs ==> v == 1
    requires SlotsHold(m, Get(locals, FRAME_PTR_VAR), vs, locals)
    ensures var (state, locals2, m2) := Resurrect(SevenLeft(h), 1, |vs|, locals, m, tr);
            var restored := RestoreSlots(vs, Offsets(|vs|), FRAME_PTR_VAR, locals2, m2);
            state == 1 && Get(restored, 0) == 7
  {
    hide SuspendedMem, RestoreSlots, SlotsHold, Offsets;
    var w, frame := SevenLeft(h), Get(locals, FRAME_PTR_VAR);
    FrameSurvives(m, frame, vs, locals, 1, w.memory(tr));
    HeaderSurvives(m, frame, 1, HEADER_SIZE + 8 * |vs|, w.memory(tr));
    var (state, locals2, m2) := Resurrect(w, 1, |vs|, locals, m, tr);
    assert Get(locals2, FRAME_PTR_VAR) == frame && Get(locals2, 0) == 7;
    SlotsRestore(vs, locals2, m2, locals);
    assert 0 !in vs;
  }

  /** With frames, and a host that leaves 7 behind, it returns 7. */
  lemma {:induction false} HiddenReadFramed(h: Host, fb: seq<CirBlock>)
    requires Framed(HiddenReadBlocks(), LiveIn(HiddenReadBlocks()), fb)
    ensures FramedEnter(fb, SevenLeft(h), 0, map[], map[], [], 2) == Finished(ASKED, 7)
  {
    var blocks, w, tr := HiddenReadBlocks(), SevenLeft(h), ASKED;
    var ins := LiveIn(blocks);
    var vs := SavedVars(blocks[0].terminator, ins);
    HiddenReadNotSaved();
    HiddenReadShape(fb);
    hide LiveIn, Framed, SavedVars;
    var st0: Store := map[0 := FIVE];
    var locals := st0[FRAME_PTR_VAR := 0];
    var m := SaveSlots(vs, Offsets(|vs|), 0, locals, map[]);
    SaveFillsSlots(vs, 0, locals, map[]);
    HiddenReadRestored(h, vs, locals, m, tr);
    var (state, locals2, m2) := Resurrect(w, 1, |vs|, locals, m, tr);
    HiddenReadFirst(h, fb, vs, locals2, m2);
    var restored := RestoreSlots(vs, Offsets(|vs|), FRAME_PTR_VAR, locals2, m2);
    HiddenReadSecond(h, fb, vs, locals2, m2, restored, tr);
  }

  lemma {:induction false} HiddenReadShape(fb: seq<CirBlock>)
    requires Framed(HiddenReadBlocks(), LiveIn(HiddenReadBlocks()), fb)
    ensures var blocks := HiddenReadBlocks();
            var vs := SavedVars(blocks[0].terminator, LiveIn(blocks));
            && |fb| == 2
            && fb[0].stmts == [Assign(0, ConstI64(FIVE)), SaveStmt(vs)]
            && fb[0].terminator == SuspendAndYield(LlmAsk, [Var(0)], 1, 2, vs)
            && fb[1].stmts == ResumePrologue(vs, 2) + [Assign(1, ConstNil), Assign(1, Var(0))]
            && fb[1].terminator == Return(Some(Var(1)))
  {
    var blocks := HiddenReadBlocks();
    var ins := LiveIn(blocks);
    hide LiveIn, SavedVars;
    assert FramedBlock(blocks, ins, 0, fb[0]) && FramedBlock(blocks, ins, 1, fb[1]);
    assert SuspendsTo(blocks[0], 1) && !SuspendsTo(blocks[0], 0) && !SuspendsTo(blocks[1], 0) && !SuspendsTo(blocks[1], 1);
    assert forall i :: 0 <= i < |blocks| && SuspendsTo(blocks[i], 1) ==> i == 0;
    assert forall i :: 0 <= i < |blocks| ==> !SuspendsTo(blocks[i], 0);
    assert Pre(blocks, ins, 0) == [];
    assert [] + blocks[0].stmts + [SaveStmt(SavedVars(blocks[0].terminator, ins))]
        == [Assign(0, ConstI64(FIVE)), SaveStmt(SavedVars(blocks[0].terminator, ins))];
    assert ResumePrologue(SavedVars(blocks[0].terminator, ins), 2) + blocks[1].stmts + []
        == ResumePrologue(SavedVars(blocks[0].terminator, ins), 2) + blocks[1].stmts;
  }

  lemma {:induction false} HiddenReadFirst(h: Host, fb: seq<CirBlock>, vs: seq<nat>, locals2: Store, m2: Mem)
    requires |fb| == 2 && fb[0].stmts == [Assign(0, ConstI64(FIVE)), SaveStmt(vs)]
    requires fb[0].terminator == SuspendAndYield(LlmAsk, [Var(0)], 1, 2, vs)
    requires var locals: Store := map[0 := FIVE][FRAME_PTR_VAR := 0];
             Resurrect(SevenLeft(h), 1, |vs|, locals, SaveSlots(vs, Offsets(|vs|), 0, locals, map[]), ASKED) == (1, locals2, m2)
    ensures FramedEnter(fb, SevenLeft(h), 0, map[], map[], [], 2) == FramedEnter(fb, SevenLeft(h), 1, locals2, m2, ASKED, 1)
  {
    hide Resurrect, SaveSlots, Offsets;
    var w := SevenLeft(h);
    var st0: Store := map[0 := FIVE];
    var locals := st0[FRAME_PTR_VAR := 0];
    var m := SaveSlots(vs, Offsets(|vs|), 0, locals, map[]);
    assert fb[0].stmts[1..] == [SaveStmt(vs)] && [SaveStmt(vs)][1..] == [];
    assert ExecFramed(w, Assign(0, ConstI64(FIVE)), map[], map[], []) == (st0, map[], []);
    assert ExecFramed(w, SaveStmt(vs), st0, map[], []) == (locals, m, []);
    assert EvalExprs(h, [Var(0)], locals, []) == ([FIVE], []) by { OneEval(h, Var(0), locals, []); }
    assert [] + [Suspended(LlmAsk, [FIVE])] == ASKED;
    assert FramedRun(fb, w, 0, [], fb[0].terminator, locals, m, [], 1) == FramedEnter(fb, w, 1, locals2, m2, ASKED, 1);
    assert FramedRun(fb, w, 0, [SaveStmt(vs)], fb[0].terminator, st0, map[], [], 1)
        == FramedRun(fb, w, 0, [], fb[0].terminator, locals, m, [], 1);
  }

  lemma {:induction false} HiddenReadSecond(h: Host, fb: seq<CirBlock>, vs: seq<nat>, locals: Store, m: Mem, restored: Store, tr: Trace)
    requires |fb| == 2 && fb[1].stmts == ResumePrologue(vs, 2) + [Assign(1, ConstNil), Assign(1, Var(0))]
    requires fb[1].terminator == Return(Some(Var(1)))
    requires restored == RestoreSlots(vs, Offsets(|vs|), FRAME_PTR_VAR, locals, m) && Get(restored, 0) == 7
    ensures FramedEnter(fb, SevenLeft(h), 1, locals, m, tr, 1) == Finished(tr, 7)
  {
    hide RestoreSlots, Offsets;
    var w, t := SevenLeft(h), fb[1].terminator;
    var body := [Assign(1, ConstNil), Assign(1, Var(0))];
    var l1 := restored[2 := Get(restored, RESULT_VAR)];
    var l2 := l1[1 := TAG_NIL];
    var l3 := l2[1 := 7];
    assert fb[1].stmts[1..] == [Assign(2, Var(RESULT_VAR))] + body;
    assert ([Assign(2, Var(RESULT_VAR))] + body)[1..] == body;
    assert body[1..] == [Assign(1, Var(0))] && [Assign(1, Var(0))][1..] == [];
    assert Get(l2, 0) == 7;
    assert FramedRun(fb, w, 1, [], t, l3, m, tr, 0) == Finished(tr, 7);
    assert FramedRun(fb, w, 1, [Assign(1, Var(0))], t, l2, m, tr, 0) == Finished(tr, 7);
    assert FramedRun(fb, w, 1, body, t, l1, m, tr, 0) == Finished(tr, 7);
    assert FramedRun(fb, w, 1, [Assign(2, Var(RESULT_VAR))] + body, t, restored, m, tr, 0) == Finished(tr, 7);
  }

  /** A MIR function with a hidden read: its compiled form asks the same and
      returns what the host left behind instead of the value it had. */
  lemma {:induction false} HiddenReadIsLost(mh: MirHost, fb: seq<CirBlock>)
    requires Framed(HiddenReadBlocks(), LiveIn(HiddenReadBlocks()), fb)
    ensures Lowered(HiddenReadFunction(), HiddenReadSegments(), HiddenReadBlocks()) && !NoHiddenReads(HiddenReadBlocks()[1])
    ensures !Matches(mh.host, EnterMir(HiddenReadFunction(), mh, 0, map[], [], 2),
                     FramedEnter(fb, SevenLeft(mh.host), 0, map[], map[], [], 2))
  {
    hide Framed, Lowered, EnterMir, FramedEnter, EraseAll;
    HiddenReadScan();
    HiddenReadLowered();
    HiddenReadMir(mh);
    HiddenReadFramed(mh.host, fb);
  }

  // ----- message payloads are not delivered -----

  /** One suspension, after which local `l` is returned. */
  function SuspendThenReturn(params: seq<nat>, captures: seq<nat>, s: Stmt, l: nat): Function {
    Function(params, captures, [Block(0, [s], Ret(Some(l)))], 0)
  }

  /** For every host, payloads included, from related stores and at any fuel. */
  ghost predicate AlwaysMatches(f: Function, blocks: seq<CirBlock>, used: set<nat>) {
    forall mh: MirHost, mst: Store, cst: Store, fuel: nat :: Rel(used, ParamCount(f), mst, cst) ==>
      Matches(mh.host, EnterMir(f, mh, f.entry, mst, [], fuel), Enter(blocks, mh.host, f.entry, cst, [], fuel))
  }

  /** Both runs of such a function, with the value each returns. */
  lemma {:induction false} SuspendThenReturnRuns(f: Function, segs: seq<Segment>, blocks: seq<CirBlock>, s: Stmt, l: nat,
                                                 mh: MirHost, mst: Store, cst: Store, fuel: nat)
    requires f == SuspendThenReturn(f.params, f.captures, s, l) && SuspendsStmt(s) && Lowered(f, segs, blocks)
    requires Rel(StmtReads(s) + {l}, ParamCount(f), mst, cst) && fuel >= 2
    ensures var pc, es := ParamCount(f), [SuspendEvent(s.op, mst)];
            var tr := EraseAll(mh.host, es);
            var st := mst[s.dst := mh.host.reply(tr)];
            && EnterMir(f, mh, 0, mst, [], fuel) == MFinished(es, Get(WritePayload(mh, tr, st, s.dst, PayloadCount(s.op)), l))
            && Enter(blocks, mh.host, 0, cst, [], fuel) == Finished(tr, Get(cst[VarOf(s.dst, pc) := mh.host.reply(tr)], VarOf(l, pc)))
  {
    hide Lowered, SuspendEvent, Suspends, EndsWith, WritePayload, EraseAll, SuspendEffectAndArgs;
    var pc, h, used, stmts, term := ParamCount(f), mh.host, StmtReads(s) + {l}, [s], Ret(Some(l));
    var es := [SuspendEvent(s.op, mst)];
    assert [] + es == es && stmts[1..] == [];
    FirstSegment(f, segs, blocks, s, l);
    assert EraseAll(h, []) == [] by { EraseNothing(h); }
    SuspendEnd(segs, 1, stmts, term, blocks[0].terminator, pc);
    RunSuspends(blocks, h, used, pc, segs, 1, stmts, term, blocks[0].terminator, mst, cst, [], fuel - 1);
    RunMirSuspends(f, mh, stmts, term, mst, [], fuel - 1);
    EnterRuns(blocks, h, 0, cst, [], fuel);
    var r := blocks[0].terminator.resumeBlock;
    LoweredFacts(f, segs, blocks, r);
    var tr := EraseAll(h, es);
    EnterRuns(blocks, h, r, cst[VarOf(s.dst, pc) := h.reply(tr)], tr, fuel - 1);
    PlainEnd(segs, 1, term, blocks[r].terminator, pc);
    assert stmts[1..][..SplitAt(stmts[1..])] == [];
    assert TranslateAll([], pc) == [];
  }

  lemma {:induction false} EraseNothing(h: Host)
    ensures EraseAll(h, []) == []
  {
  }

  lemma {:induction false} FirstSegment(f: Function, segs: seq<Segment>, blocks: seq<CirBlock>, s: Stmt, l: nat)
    requires f == SuspendThenReturn(f.params, f.captures, s, l) && SuspendsStmt(s) && Lowered(f, segs, blocks)
    ensures |segs| == |blocks| >= 1 && segs[0] == Segment([s], Ret(Some(l)))
    ensures blocks[0].stmts == [] && EndsWith(segs, 1, Segment([s], Ret(Some(l))), blocks[0].terminator, ParamCount(f))
  {
    hide SuspendEffectAndArgs, Suspends;
    assert f.blocks[0].id == 0;
    assert LoweredBlock(segs, 1, 0, blocks[0], ParamCount(f));
    assert [s][..SplitAt([s])] == [];
  }

  /** Shorter runs stop at the same event. */
  lemma {:induction false} SuspendThenReturnShort(f: Function, segs: seq<Segment>, blocks: seq<CirBlock>, s: Stmt, l: nat,
                                                  mh: MirHost, mst: Store, cst: Store, fuel: nat)
    requires f == SuspendThenReturn(f.params, f.captures, s, l) && SuspendsStmt(s) && Lowered(f, segs, blocks)
    requires Rel(StmtReads(s) + {l}, ParamCount(f), mst, cst) && fuel < 2
    ensures Matches(mh.host, EnterMir(f, mh, 0, mst, [], fuel), Enter(blocks, mh.host, 0, cst, [], fuel))
  {
    hide Lowered, SuspendEvent, Suspends, EndsWith, WritePayload, EraseAll, SuspendEffectAndArgs;
    var pc, h, stmts, term := ParamCount(f), mh.host, [s], Ret(Some(l));
    assert EraseAll(h, []) == [] by { EraseNothing(h); }
    if fuel == 1 {
      FirstSegment(f, segs, blocks, s, l);
      assert [] + [SuspendEvent(s.op, mst)] == [SuspendEvent(s.op, mst)];
      SuspendEnd(segs, 1, stmts, term, blocks[0].terminator, pc);
      RunSuspends(blocks, h, StmtReads(s) + {l}, pc, segs, 1, stmts, term, blocks[0].terminator, mst, cst, [], 0);
      RunMirSuspends(f, mh, stmts, term, mst, [], 0);
      EnterRuns(blocks, h, 0, cst, [], 1);
    }
  }

  /** A function that suspends once and returns a local behaves, when lowered,
      as MIR says for every host exactly when the local is not one that a
      receive fills with the message. */
  lemma {:induction false} PayloadLocalsUndelivered(f: Function, segs: seq<Segment>, blocks: seq<CirBlock>, s: Stmt, l: nat)
    requires f == SuspendThenReturn(f.params, f.captures, s, l) && SuspendsStmt(s) && Lowered(f, segs, blocks)
    ensures AlwaysMatches(f, blocks, StmtReads(s) + {l}) <==> !Undelivers(s, l)
  {
    hide Lowered, Enter, EnterMir, EraseAll, SuspendEvent, Suspends;
    if Undelivers(s, l) {
      MissingPayload(f, segs, blocks, s, l);
    } else {
      forall mh: MirHost, mst: Store, cst: Store, fuel: nat | Rel(StmtReads(s) + {l}, ParamCount(f), mst, cst)
        ensures Matches(mh.host, EnterMir(f, mh, 0, mst, [], fuel), Enter(blocks, mh.host, 0, cst, [], fuel))
      {
        if fuel < 2 {
          SuspendThenReturnShort(f, segs, blocks, s, l, mh, mst, cst, fuel);
        } else {
          SuspendThenReturnRuns(f, segs, blocks, s, l, mh, mst, cst, fuel);
          var tr := EraseAll(mh.host, [SuspendEvent(s.op, mst)]);
          PayloadOutside(mh, {l}, tr, mst[s.dst := mh.host.reply(tr)], s.dst, PayloadCount(s.op));
          assert Get(mst, l) == Get(cst, VarOf(l, ParamCount(f)));
        }
      }
    }
  }

  /** The message is 1, the local keeps its zero. */
  lemma {:induction false} MissingPayload(f: Function, segs: seq<Segment>, blocks: seq<CirBlock>, s: Stmt, l: nat)
    requires f == SuspendThenReturn(f.params, f.captures, s, l) && SuspendsStmt(s) && Lowered(f, segs, blocks) && Undelivers(s, l)
    ensures !AlwaysMatches(f, blocks, StmtReads(s) + {l})
  {
    hide Lowered, Enter, EnterMir, EraseAll, SuspendEvent, Suspends, WritePayload;
    var h := Host((_, _) => 0, _ => 0, _ => 0, (_, _) => 0, (_, _, _) => 0, _ => 0);
    var mh := MirHost(h, (_, _) => 1);
    assert Rel(StmtReads(s) + {l}, ParamCount(f), map[], map[]);
    SuspendThenReturnRuns(f, segs, blocks, s, l, mh, map[], map[], 2);
    var tr := EraseAll(h, [SuspendEvent(s.op, map[])]);
    var st: Store := map[][s.dst := h.reply(tr)];
    PayloadInside(mh, tr, st, s.dst, PayloadCount(s.op), l);
    assert !Matches(h, EnterMir(f, mh, 0, map[], [], 2), Enter(blocks, h, 0, map[], [], 2));
  }

  lemma {:induction false} PayloadInside(mh: MirHost, tr: Trace, st: Store, dst: nat, n: nat, l: nat)
    requires dst < l <= dst + n
    ensures Get(WritePayload(mh, tr, st, dst, n), l) == mh.payload(tr, l - dst)
  {
    if l < dst + n { PayloadInside(mh, tr, st, dst, n - 1, l); }
  }

  // ----- arguments are not delivered -----

  /** The MIR store at entry: parameters then captures hold the arguments. */
  function MirEntry(locals: seq<nat>, args: seq<Val>): Store
    requires |locals| == |args|
  {
    if locals == [] then map[] else MirEntry(locals[..|locals| - 1], args[..|args| - 1])[locals[|locals| - 1] := args[|args| - 1]]
  }

  /** The Wasm locals at entry: arguments come first, the rest is zero. */
  function WasmEntry(args: seq<Val>): Store {
    map i: nat | i < |args| :: args[i]
  }

  lemma {:induction false} MirEntryAt(locals: seq<nat>, args: seq<Val>, i: nat)
    requires |locals| == |args| && i < |locals|
    requires forall a, b :: 0 <= a < b < |locals| ==> locals[a] != locals[b]
    ensures Get(MirEntry(locals, args), locals[i]) == args[i]
  {
    if i < |locals| - 1 { MirEntryAt(locals[..|locals| - 1], args[..|args| - 1], i); }
  }

  /** `var` shifts every local past the arguments, so the entry stores agree on
      the parameters and captures exactly when every argument is the zero word. */
  lemma {:induction false} ArgumentsDelivered(f: Function, args: seq<Val>)
    requires |args| == ParamCount(f)
    requires var locals := f.params + f.captures;
             forall a, b :: 0 <= a < b < |locals| ==> locals[a] != locals[b]
    ensures Rel(SetOf(f.params + f.captures), ParamCount(f), MirEntry(f.params + f.captures, args), WasmEntry(args))
        <==> forall i :: 0 <= i < |args| ==> args[i] == 0
  {
    var locals, pc := f.params + f.captures, ParamCount(f);
    var mst, cst := MirEntry(locals, args), WasmEntry(args);
    assert forall l: nat :: Get(cst, VarOf(l, pc)) == 0;
    if Rel(SetOf(locals), pc, mst, cst) {
      forall i | 0 <= i < |args| ensures args[i] == 0 {
        MirEntryAt(locals, args, i);
        assert locals[i] in SetOf(locals);
      }
    }
    if forall i :: 0 <= i < |args| ==> args[i] == 0 {
      forall l | l in SetOf(locals) ensures Get(mst, l) == Get(cst, VarOf(l, pc)) {
        var i :| 0 <= i < |locals| && locals[i] == l;
        MirEntryAt(locals, args, i);
      }
    }
  }
}
