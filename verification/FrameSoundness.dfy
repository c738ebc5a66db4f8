/** Frame insertion preserves meaning: a function that keeps only its frame
    across suspends behaves like one whose locals all survive. */
module FrameSoundness {
  import opened Options
  import opened Cir
  import opened Liveness
  import opened Frames

  /** Live sets that cover every block entry and avoid the locals the backend reserves. */
  ghost predicate Covering(blocks: seq<CirBlock>, ins: seq<set<nat>>) {
    && |ins| == |blocks|
    && (forall b :: 0 <= b < |blocks| ==> LiveBefore(blocks[b].stmts, After(blocks[b].terminator, ins)) <= ins[b])
    && (forall b, v :: 0 <= b < |blocks| && v in ins[b] ==> v < STATE_VAR)
    && (forall b, v :: 0 <= b < |blocks| && v in After(blocks[b].terminator, ins) ==> v < STATE_VAR)
  }

  ghost predicate Ready(blocks: seq<CirBlock>, ins: seq<set<nat>>, entry: nat, fb: seq<CirBlock>) {
    && ValidTargets(blocks)
    && (forall b :: 0 <= b < |blocks| ==> FrameFree(blocks[b].stmts))
    && Covering(blocks, ins) && Disciplined(blocks, entry) && Framed(blocks, ins, fb)
  }

  lemma {:induction false} ReadyBlock(blocks: seq<CirBlock>, ins: seq<set<nat>>, entry: nat, fb: seq<CirBlock>, b: nat)
    requires Ready(blocks, ins, entry, fb) && b < |blocks|
    ensures |ins| == |blocks| == |fb| && FrameFree(blocks[b].stmts)
    ensures LiveBefore(blocks[b].stmts, After(blocks[b].terminator, ins)) <= ins[b]
    ensures blocks[b].terminator.SuspendAndYield? ==> blocks[b].terminator.resumeBlock < |blocks|
    ensures fb[b].stmts == Pre(blocks, ins, b) + blocks[b].stmts + Post(blocks[b].terminator, ins)
    ensures fb[b].terminator == FramedTerm(blocks[b].terminator, ins)
  {
  }

  lemma {:induction false} PreOfResume(blocks: seq<CirBlock>, ins: seq<set<nat>>, entry: nat, b: nat)
    requires InRange(blocks, ins) && Disciplined(blocks, entry) && b < |blocks|
    requires blocks[b].terminator.SuspendAndYield?
    ensures var term := blocks[b].terminator;
            Pre(blocks, ins, term.resumeBlock)
               == ResumePrologue(SavedVars(term, ins), term.resumeVar)
  {
    var r := blocks[b].terminator.resumeBlock;
    assert SuspendsTo(blocks[b], r);
    assert forall i :: 0 <= i < |blocks| && SuspendsTo(blocks[i], r) ==> i == b;
  }

  /** From any point inside block `b`, stores that agree on the live variables give the same outcome. */
  lemma {:induction false} FrameSim(blocks: seq<CirBlock>, ins: seq<set<nat>>, entry: nat, fb: seq<CirBlock>, w: World, b: nat,
                                    stmts: seq<CirStmt>, st: Store, locals: Store, m: Mem, tr: Trace, fuel: nat)
    requires Ready(blocks, ins, entry, fb) && b < |blocks| && FrameFree(stmts)
    requires Agree(st, locals, LiveBefore(stmts, After(blocks[b].terminator, ins)))
    ensures FramedRun(fb, w, b, stmts + Post(blocks[b].terminator, ins), fb[b].terminator, locals, m, tr, fuel)
         == Run(blocks, w.host, stmts, blocks[b].terminator, st, tr, fuel)
    decreases fuel, 2, |stmts|
  {
    hide Ready, FramedRun, Run;
    ReadyBlock(blocks, ins, entry, fb, b);
    var term := blocks[b].terminator;
    if stmts == [] {
      TerminatorSim(blocks, ins, entry, fb, w, b, st, locals, m, tr, fuel);
      assert stmts + Post(term, ins) == Post(term, ins);
    } else {
      var s, rest := stmts[0], stmts[1..];
      assert stmts == [s] + rest;
      StmtAgree(w.host, s, rest, After(term, ins), st, locals, tr);
      FrameSim(blocks, ins, entry, fb, w, b, rest, ExecStmt(w.host, s, st, tr).0, ExecStmt(w.host, s, locals, tr).0,
               m, ExecStmt(w.host, s, st, tr).1, fuel);
      StmtStep(blocks, fb, w, b, s, rest, Post(term, ins), term, fb[b].terminator, st, locals, m, tr, fuel);
    }
  }

  lemma {:induction false} StmtStep(blocks: seq<CirBlock>, fb: seq<CirBlock>, w: World, b: nat, s: CirStmt, rest: seq<CirStmt>, post: seq<CirStmt>,
                 term: CirTerminator, fterm: CirTerminator, st: Store, locals: Store, m: Mem, tr: Trace, fuel: nat)
    requires s.Assign? || s.Emit?
    requires ExecStmt(w.host, s, st, tr).1 == ExecStmt(w.host, s, locals, tr).1
    requires var (st1, tr1) := ExecStmt(w.host, s, st, tr);
             FramedRun(fb, w, b, rest + post, fterm, ExecStmt(w.host, s, locals, tr).0, m, tr1, fuel)
             == Run(blocks, w.host, rest, term, st1, tr1, fuel)
    ensures FramedRun(fb, w, b, [s] + rest + post, fterm, locals, m, tr, fuel)
         == Run(blocks, w.host, [s] + rest, term, st, tr, fuel)
  {
    assert ([s] + rest)[1..] == rest;
    assert ([s] + rest + post)[1..] == rest + post;
  }

  lemma {:induction false} TerminatorSim(blocks: seq<CirBlock>, ins: seq<set<nat>>, entry: nat, fb: seq<CirBlock>, w: World, b: nat,
                                         st: Store, locals: Store, m: Mem, tr: Trace, fuel: nat)
    requires Ready(blocks, ins, entry, fb) && b < |blocks|
    requires Agree(st, locals, After(blocks[b].terminator, ins))
    ensures FramedRun(fb, w, b, Post(blocks[b].terminator, ins), fb[b].terminator, locals, m, tr, fuel)
         == Run(blocks, w.host, [], blocks[b].terminator, st, tr, fuel)
    decreases fuel, 1
  {
    var term := blocks[b].terminator;
    match term
    case Return(None) =>
    case Return(Some(e)) => EvalExprAgree(w.host, e, st, locals, tr);
    case Resume(e) => EvalExprAgree(w.host, e, st, locals, tr);
    case Jump(t) => JumpSim(blocks, ins, entry, fb, w, b, t, st, locals, m, tr, fuel);
    case Branch(c, t, f) =>
      EvalExprAgree(w.host, c, st, locals, tr);
      var (v, tr1) := EvalExpr(w.host, c, st, tr);
      JumpSim(blocks, ins, entry, fb, w, b, if v != TagBool(false) then t else f, st, locals, m, tr1, fuel);
    case SuspendAndYield(_, _, _, _, _) => SuspendSim(blocks, ins, entry, fb, w, b, st, locals, m, tr, fuel);
  }

  lemma {:induction false} JumpSim(blocks: seq<CirBlock>, ins: seq<set<nat>>, entry: nat, fb: seq<CirBlock>, w: World, b: nat, t: nat,
                                   st: Store, locals: Store, m: Mem, tr: Trace, fuel: nat)
    requires Ready(blocks, ins, entry, fb) && b < |blocks| && t in DirectTargets(blocks[b].terminator)
    requires Agree(st, locals, After(blocks[b].terminator, ins))
    ensures FramedEnter(fb, w, t, Dispatch(b, t, locals), m, tr, fuel) == Enter(blocks, w.host, t, st, tr, fuel)
    decreases fuel, 0
  {
    assert t in Successors(blocks[b].terminator);
    if fuel > 0 {
      var locals1 := Dispatch(b, t, locals);
      forall v | v in ins[t] ensures Get(st, v) == Get(locals1, v) {
        assert v in OutSet(ins, Successors(blocks[b].terminator));
        assert v in After(blocks[b].terminator, ins);
      }
      EnterSim(blocks, ins, entry, fb, w, t, st, locals1, m, tr, fuel);
    }
  }

  lemma {:induction false} EnterSim(blocks: seq<CirBlock>, ins: seq<set<nat>>, entry: nat, fb: seq<CirBlock>, w: World, t: nat,
                                    st: Store, locals: Store, m: Mem, tr: Trace, fuel: nat)
    requires Ready(blocks, ins, entry, fb) && t < |blocks| && fuel > 0
    requires forall i :: 0 <= i < |blocks| ==> !SuspendsTo(blocks[i], t)
    requires Agree(st, locals, ins[t])
    ensures FramedEnter(fb, w, t, locals, m, tr, fuel) == Enter(blocks, w.host, t, st, tr, fuel)
    decreases fuel - 1, 3
  {
    hide Ready, FramedRun, Run;
    ReadyBlock(blocks, ins, entry, fb, t);
    var stmts := blocks[t].stmts;
    assert fb[t].stmts == stmts + Post(blocks[t].terminator, ins);
    FrameSim(blocks, ins, entry, fb, w, t, stmts, st, locals, m, tr, fuel - 1);
    EnterFromRun(blocks, fb, w, t, stmts + Post(blocks[t].terminator, ins), st, locals, m, tr, fuel);
  }

  lemma {:induction false} EnterFromRun(blocks: seq<CirBlock>, fb: seq<CirBlock>, w: World, t: nat, stmts: seq<CirStmt>,
                     st: Store, locals: Store, m: Mem, tr: Trace, fuel: nat)
    requires fuel > 0 && t < |fb| == |blocks| && fb[t].stmts == stmts
    requires FramedRun(fb, w, t, stmts, fb[t].terminator, locals, m, tr, fuel - 1)
          == Run(blocks, w.host, blocks[t].stmts, blocks[t].terminator, st, tr, fuel - 1)
    ensures FramedEnter(fb, w, t, locals, m, tr, fuel) == Enter(blocks, w.host, t, st, tr, fuel)
  {
  }

  /** Entering a resume block: its prologue rebuilds every live variable. */
  lemma {:induction false} ResumeAgree(blocks: seq<CirBlock>, ins: seq<set<nat>>, w: World, b: nat, st: Store, locals: Store, m: Mem, tr: Trace)
    requires InRange(blocks, ins) && Covering(blocks, ins) && b < |blocks| && blocks[b].terminator.SuspendAndYield?
    requires var term := blocks[b].terminator;
             && Agree(st, locals, After(term, ins))
             && SlotsHold(m, Get(locals, FRAME_PTR_VAR), SavedVars(term, ins), locals)
    ensures var term := blocks[b].terminator;
            var vs := SavedVars(term, ins);
            var (state, locals2, m2) := Resurrect(w, term.resumeBlock, |vs|, locals, m, tr);
            var restored := RestoreSlots(vs, Offsets(|vs|), FRAME_PTR_VAR, locals2, m2);
            && state == term.resumeBlock
            && Agree(st[term.resumeVar := w.host.reply(tr)], restored[term.resumeVar := Get(restored, RESULT_VAR)],
                     ins[term.resumeBlock])
  {
    var term := blocks[b].terminator;
    var r, dst, vs := term.resumeBlock, term.resumeVar, SavedVars(term, ins);
    assert r in Successors(term);
    forall v | v in ins[r] ensures v in After(term, ins) && (v == dst || v in vs) {
      assert v in OutSet(ins, Successors(term));
      assert v < STATE_VAR;
    }
    forall v | v in vs ensures v < STATE_VAR { assert v in ins[r]; }
    FrameRoundTrip(w, vs, r, locals, m, tr);
    var (_, locals2, m2) := Resurrect(w, r, |vs|, locals, m, tr);
    var restored := RestoreSlots(vs, Offsets(|vs|), FRAME_PTR_VAR, locals2, m2);
    forall v | v in ins[r] - {dst} ensures Get(st, v) == Get(restored, v) {
      assert v in vs && v in After(term, ins);
    }
    AgreeUpdate(st, restored, ins[r], dst, w.host.reply(tr));
  }

  lemma {:induction false} SuspendSim(blocks: seq<CirBlock>, ins: seq<set<nat>>, entry: nat, fb: seq<CirBlock>, w: World, b: nat,
                                      st: Store, locals: Store, m: Mem, tr: Trace, fuel: nat)
    requires Ready(blocks, ins, entry, fb) && b < |blocks| && blocks[b].terminator.SuspendAndYield?
    requires Agree(st, locals, After(blocks[b].terminator, ins))
    ensures FramedRun(fb, w, b, Post(blocks[b].terminator, ins), fb[b].terminator, locals, m, tr, fuel)
         == Run(blocks, w.host, [], blocks[b].terminator, st, tr, fuel)
    decreases fuel, 0, 1
  {
    var term := blocks[b].terminator;
    var SuspendAndYield(effect, args, r, dst, _) := term;
    var vs := SavedVars(term, ins);
    PreOfResume(blocks, ins, entry, b);
    var base := w.alloc(tr);
    var locals1 := locals[FRAME_PTR_VAR := base];
    var m1 := SaveSlots(vs, Offsets(|vs|), base, locals1, m);
    SaveFillsSlots(vs, base, locals1, m);
    assert ExecFramed(w, SaveStmt(vs), locals, m, tr) == (locals1, m1, tr);
    assert Agree(st, locals1, After(term, ins));
    EvalExprsAgree(w.host, args, st, locals1, tr);
    var (vals, tr1) := EvalExprs(w.host, args, st, tr);
    var tr2 := tr1 + [Suspended(effect, vals)];
    var (state, locals2, m2) := Resurrect(w, r, |vs|, locals1, m1, tr2);
    ResumeAgree(blocks, ins, w, b, st, locals1, m1, tr2);
    assert Post(term, ins)[1..] == [];
    assert FramedRun(fb, w, b, Post(term, ins), fb[b].terminator, locals, m, tr, fuel)
        == FramedEnter(fb, w, r, locals2, m2, tr2, fuel);
    assert Run(blocks, w.host, [], term, st, tr, fuel)
        == Enter(blocks, w.host, r, st[dst := w.host.reply(tr2)], tr2, fuel);
    ResumeSim(blocks, ins, entry, fb, w, r, vs, dst, st[dst := w.host.reply(tr2)], locals2, m2, tr2, fuel);
  }

  lemma {:induction false} ResumeSim(blocks: seq<CirBlock>, ins: seq<set<nat>>, entry: nat, fb: seq<CirBlock>, w: World,
                                     r: nat, vs: seq<nat>, dst: nat, st: Store, locals: Store, m: Mem, tr: Trace, fuel: nat)
    requires Ready(blocks, ins, entry, fb) && r < |blocks| && Pre(blocks, ins, r) == ResumePrologue(vs, dst)
    requires var restored := RestoreSlots(vs, Offsets(|vs|), FRAME_PTR_VAR, locals, m);
             Agree(st, restored[dst := Get(restored, RESULT_VAR)], ins[r])
    ensures FramedEnter(fb, w, r, locals, m, tr, fuel) == Enter(blocks, w.host, r, st, tr, fuel)
    decreases fuel, 0, 0
  {
    hide Ready, FramedRun, Run;
    if fuel > 0 {
      ReadyBlock(blocks, ins, entry, fb, r);
      var restored := RestoreSlots(vs, Offsets(|vs|), FRAME_PTR_VAR, locals, m);
      var locals1 := restored[dst := Get(restored, RESULT_VAR)];
      FrameSim(blocks, ins, entry, fb, w, r, blocks[r].stmts, st, locals1, m, tr, fuel - 1);
      EnterFromResume(blocks, fb, w, r, vs, dst, Post(blocks[r].terminator, ins), st, locals, locals1, m, tr, fuel);
    }
  }

  lemma {:induction false} EnterFromResume(blocks: seq<CirBlock>, fb: seq<CirBlock>, w: World, r: nat, vs: seq<nat>, dst: nat,
                        post: seq<CirStmt>, st: Store, locals: Store, locals1: Store, m: Mem, tr: Trace, fuel: nat)
    requires fuel > 0 && r < |fb| == |blocks| && fb[r].stmts == ResumePrologue(vs, dst) + blocks[r].stmts + post
    requires locals1 == (var restored := RestoreSlots(vs, Offsets(|vs|), FRAME_PTR_VAR, locals, m);
                         restored[dst := Get(restored, RESULT_VAR)])
    requires FramedRun(fb, w, r, blocks[r].stmts + post, fb[r].terminator, locals1, m, tr, fuel - 1)
          == Run(blocks, w.host, blocks[r].stmts, blocks[r].terminator, st, tr, fuel - 1)
    ensures FramedEnter(fb, w, r, locals, m, tr, fuel) == Enter(blocks, w.host, r, st, tr, fuel)
  {
    PrologueRuns(fb, w, r, vs, dst, blocks[r].stmts, post, fb[r].terminator, locals, m, tr, fuel - 1);
    EnterFromRun(blocks, fb, w, r, fb[r].stmts, st, locals, m, tr, fuel);
  }

  lemma {:induction false} PrologueRuns(fb: seq<CirBlock>, w: World, r: nat, vs: seq<nat>, dst: nat, body: seq<CirStmt>, post: seq<CirStmt>,
                     term: CirTerminator, locals: Store, m: Mem, tr: Trace, fuel: nat)
    ensures FramedRun(fb, w, r, ResumePrologue(vs, dst) + body + post, term, locals, m, tr, fuel)
         == (var restored := RestoreSlots(vs, Offsets(|vs|), FRAME_PTR_VAR, locals, m);
             FramedRun(fb, w, r, body + post, term, restored[dst := Get(restored, RESULT_VAR)], m, tr, fuel))
  {
    var stmts := ResumePrologue(vs, dst) + body + post;
    assert stmts[1..][1..] == body + post;
    assert stmts[1..][0] == Assign(dst, Var(RESULT_VAR));
  }

  /** What `compute_live_vars` needs of a function: valid targets, no hidden
      reads, no reads of reserved locals, and resume blocks entered only by
      their own suspend. */
  ghost predicate Suspendable(blocks: seq<CirBlock>, entry: nat) {
    && ValidTargets(blocks) && Analysable(blocks) && Disciplined(blocks, entry) && entry < |blocks|
    && forall v :: v in AllUses(blocks) ==> v < STATE_VAR
  }

  lemma {:induction false} LiveInCovers(blocks: seq<CirBlock>, entry: nat)
    requires Suspendable(blocks, entry)
    ensures Covering(blocks, LiveIn(blocks))
  {
    var ins := LiveIn(blocks);
    LiveInIsSolution(blocks);
    forall b | 0 <= b < |blocks|
      ensures LiveBefore(blocks[b].stmts, After(blocks[b].terminator, ins)) <= ins[b]
    {
      EntryCovered(blocks, ins, b);
    }
    forall b, v | 0 <= b < |blocks| && v in After(blocks[b].terminator, ins)
      ensures v < STATE_VAR
    {
      if v in TermUses(blocks[b].terminator) { assert v in BlockScan(blocks[b]).uses; }
      assert v in AllUses(blocks);
    }
  }

  /** For every host, and whatever is left of locals and memory after each
      suspend, the framed function has exactly the events and result of the
      original with locals preserved. */
  lemma {:induction false} FramesPreserveMeaning(blocks: seq<CirBlock>, entry: nat, fb: seq<CirBlock>, w: World, st: Store, m: Mem, fuel: nat)
    requires Suspendable(blocks, entry) && Framed(blocks, LiveIn(blocks), fb)
    ensures FramedEnter(fb, w, entry, st[STATE_VAR := entry], m, [], fuel) == Enter(blocks, w.host, entry, st, [], fuel)
  {
    LiveInCovers(blocks, entry);
    assert forall b :: 0 <= b < |blocks| ==> blocks[b] in blocks;
    if fuel > 0 {
      EnterSim(blocks, LiveIn(blocks), entry, fb, w, entry, st, st[STATE_VAR := entry], m, [], fuel);
    }
  }
}
