/** `compute_live_vars` (src/cir_analysis.rs): the whole pass, in place. */
module FrameInsertion {
  import opened Cir
  import opened Liveness
  import opened Frames

  datatype PendingSave = PendingSave(block: nat, vars: seq<nat>, offsets: seq<nat>)
  datatype PendingRestore = PendingRestore(block: nat, vars: seq<nat>, offsets: seq<nat>, resumeVar: nat)

  ghost predicate OneSuspendPerResume(blocks: seq<CirBlock>) {
    forall i, j :: 0 <= i < |blocks| && 0 <= j < |blocks| && i != j && blocks[i].terminator.SuspendAndYield? ==>
      !SuspendsTo(blocks[j], blocks[i].terminator.resumeBlock)
  }

  /** Indices below `i` of the suspending blocks, in order. */
  ghost function Suspending(blocks: seq<CirBlock>, i: nat): (idx: seq<nat>)
    requires i <= |blocks|
    ensures forall j: nat :: j in idx <==> j < i && blocks[j].terminator.SuspendAndYield?
    ensures forall x, y :: 0 <= x < y < |idx| ==> idx[x] < idx[y]
  {
    if i == 0 then []
    else if blocks[i - 1].terminator.SuspendAndYield? then
      var before := Suspending(blocks, i - 1);
      assert forall x :: 0 <= x < |before| ==> before[x] in before;
      before + [i - 1]
    else Suspending(blocks, i - 1)
  }

  ghost function SaveOf(blocks: seq<CirBlock>, ins: seq<set<nat>>, i: nat): PendingSave
    requires i < |blocks| && blocks[i].terminator.SuspendAndYield? && blocks[i].terminator.resumeBlock < |ins|
  {
    var vs := SavedVars(blocks[i].terminator, ins);
    PendingSave(i, vs, Offsets(|vs|))
  }

  ghost function RestoreOf(blocks: seq<CirBlock>, ins: seq<set<nat>>, i: nat): PendingRestore
    requires i < |blocks| && blocks[i].terminator.SuspendAndYield? && blocks[i].terminator.resumeBlock < |ins|
  {
    var vs := SavedVars(blocks[i].terminator, ins);
    PendingRestore(blocks[i].terminator.resumeBlock, vs, Offsets(|vs|), blocks[i].terminator.resumeVar)
  }

  /** The pending frames of the suspending blocks `idx`. */
  ghost predicate Collected(blocks: seq<CirBlock>, ins: seq<set<nat>>, idx: seq<nat>,
                            saves: seq<PendingSave>, restores: seq<PendingRestore>)
  {
    && InRange(blocks, ins)
    && |saves| == |restores| == |idx|
    && forall x :: 0 <= x < |idx| ==>
         && idx[x] < |blocks| && blocks[idx[x]].terminator.SuspendAndYield?
         && saves[x] == SaveOf(blocks, ins, idx[x]) && restores[x] == RestoreOf(blocks, ins, idx[x])
  }

  lemma {:induction false} SavedVarsSorted(term: CirTerminator, ins: seq<set<nat>>)
    requires term.SuspendAndYield? && term.resumeBlock < |ins|
    ensures var vs := SavedVars(term, ins);
            forall i, j :: 0 <= i < j < |vs| ==> vs[i] < vs[j]
  {
  }

  method LiveLayout(live: seq<nat>) returns (offsets: seq<nat>)
    requires forall i, j :: 0 <= i < j < |live| ==> live[i] < live[j]
    ensures offsets == Offsets(|live|)
  {
    var layout := ComputeFrameLayout(live);
    offsets := [];
    for k := 0 to |live|
      invariant |offsets| == k && forall j :: 0 <= j < k ==> offsets[j] == HEADER_SIZE + 8 * j
    {
      assert live[k] in SeqSet(live);
      offsets := offsets + [layout.varOffsets[live[k]]];
    }
  }

  ghost function LiveVarsFilled(blocks: seq<CirBlock>, ins: seq<set<nat>>, i: nat): (fb: seq<CirBlock>)
    requires InRange(blocks, ins)
  {
    seq(|blocks|, j requires 0 <= j < |blocks| =>
      if j < i then blocks[j].(terminator := FramedTerm(blocks[j].terminator, ins)) else blocks[j])
  }

  lemma {:induction false} CollectNone(blocks: seq<CirBlock>, ins: seq<set<nat>>)
    requires InRange(blocks, ins)
    ensures Collected(blocks, ins, Suspending(blocks, 0), [], [])
    ensures blocks == LiveVarsFilled(blocks, ins, 0)
  {
  }

  lemma {:induction false} FillStep(blocks: seq<CirBlock>, ins: seq<set<nat>>, i: nat)
    requires InRange(blocks, ins) && i < |blocks|
    ensures |LiveVarsFilled(blocks, ins, i)| == |blocks| && LiveVarsFilled(blocks, ins, i)[i] == blocks[i]
    ensures LiveVarsFilled(blocks, ins, i + 1)
         == LiveVarsFilled(blocks, ins, i)[i := blocks[i].(terminator := FramedTerm(blocks[i].terminator, ins))]
  {
    hide FramedTerm;
  }

  lemma {:induction false} CollectStep(blocks: seq<CirBlock>, ins: seq<set<nat>>, i: nat, saves: seq<PendingSave>, restores: seq<PendingRestore>)
    requires InRange(blocks, ins) && i < |blocks| && Collected(blocks, ins, Suspending(blocks, i), saves, restores)
    ensures if blocks[i].terminator.SuspendAndYield? then
              Collected(blocks, ins, Suspending(blocks, i + 1), saves + [SaveOf(blocks, ins, i)], restores + [RestoreOf(blocks, ins, i)])
            else
              Collected(blocks, ins, Suspending(blocks, i + 1), saves, restores)
  {
    hide SaveOf, RestoreOf;
  }

  /** Fills in `live_vars` of every suspend and lists the frames to save and restore. */
  method CollectFrames(blocks: array<CirBlock>, ins: seq<set<nat>>) returns (saves: seq<PendingSave>, restores: seq<PendingRestore>)
    requires InRange(blocks[..], ins)
    modifies blocks
    ensures Collected(old(blocks[..]), ins, Suspending(old(blocks[..]), blocks.Length), saves, restores)
    ensures blocks[..] == LiveVarsFilled(old(blocks[..]), ins, blocks.Length)
  {
    ghost var orig := blocks[..];
    hide Collected, Offsets, SavedVars, LiveVarsFilled, Suspending;
    saves, restores := [], [];
    CollectNone(orig, ins);
    for i := 0 to blocks.Length
      invariant Collected(orig, ins, Suspending(orig, i), saves, restores)
      invariant blocks[..] == LiveVarsFilled(orig, ins, i)
    {
      CollectStep(orig, ins, i, saves, restores);
      FillStep(orig, ins, i);
      var term := blocks[i].terminator;
      if term.SuspendAndYield? {
        var live := SavedVars(term, ins);
        SavedVarsSorted(term, ins);
        var offsets := LiveLayout(live);
        saves := saves + [PendingSave(i, live, offsets)];
        restores := restores + [PendingRestore(term.resumeBlock, live, offsets, term.resumeVar)];
        blocks[i] := blocks[i].(terminator := term.(liveVars := live));
      }
    }
  }

  ghost function WithSave(b: CirBlock, ins: seq<set<nat>>, done: bool): CirBlock
    requires b.terminator.SuspendAndYield? ==> b.terminator.resumeBlock < |ins|
  {
    CirBlock(b.id, b.stmts + (if done then Post(b.terminator, ins) else []), FramedTerm(b.terminator, ins))
  }

  /** All blocks after the saves of the suspending blocks `idx`. */
  ghost function AfterSaves(blocks: seq<CirBlock>, ins: seq<set<nat>>, idx: seq<nat>): (fb: seq<CirBlock>)
    requires InRange(blocks, ins)
  {
    seq(|blocks|, j requires 0 <= j < |blocks| => WithSave(blocks[j], ins, j in idx))
  }

  lemma {:induction false} SaveStep(blocks: seq<CirBlock>, ins: seq<set<nat>>, idx: seq<nat>, i: nat)
    requires InRange(blocks, ins) && i < |blocks| && blocks[i].terminator.SuspendAndYield? && i !in idx
    ensures var p, b := SaveOf(blocks, ins, i), AfterSaves(blocks, ins, idx)[i];
            AfterSaves(blocks, ins, idx + [i])
            == AfterSaves(blocks, ins, idx)[i := b.(stmts := b.stmts + [SaveFrame(p.vars, p.offsets, FRAME_PTR_VAR)])]
  {
    assert blocks[i].stmts + [] == blocks[i].stmts;
  }

  method ApplySaves(blocks: array<CirBlock>, saves: seq<PendingSave>, ghost orig: seq<CirBlock>, ghost ins: seq<set<nat>>,
                    ghost idx: seq<nat>)
    requires InRange(orig, ins) && |saves| == |idx| && blocks.Length == |orig|
    requires forall x :: 0 <= x < |idx| ==> idx[x] < |orig| && orig[idx[x]].terminator.SuspendAndYield?
    requires forall x :: 0 <= x < |idx| ==> saves[x] == SaveOf(orig, ins, idx[x])
    requires forall x, y :: 0 <= x < y < |idx| ==> idx[x] != idx[y]
    requires blocks[..] == AfterSaves(orig, ins, [])
    modifies blocks
    ensures blocks[..] == AfterSaves(orig, ins, idx)
  {
    hide AfterSaves, WithSave, SavedVars;
    for x := 0 to |saves|
      invariant blocks[..] == AfterSaves(orig, ins, idx[..x])
    {
      ghost var i := idx[x];
      assert idx[..x + 1] == idx[..x] + [i];
      assert saves[x] == SaveOf(orig, ins, i);
      SaveStep(orig, ins, idx[..x], i);
      blocks[saves[x].block] := blocks[saves[x].block].(stmts := blocks[saves[x].block].stmts + [SaveFrame(saves[x].vars, saves[x].offsets, FRAME_PTR_VAR)]);
    }
    assert idx[..|saves|] == idx;
  }

  /** The resume prologue contributed by the suspending blocks in `idx` to block `b`. */
  ghost function PrologueFrom(blocks: seq<CirBlock>, ins: seq<set<nat>>, idx: seq<nat>, b: nat): seq<CirStmt>
    requires InRange(blocks, ins) && forall i :: i in idx ==> i < |blocks|
  {
    if exists i :: i in idx && SuspendsTo(blocks[i], b) then
      var i :| i in idx && SuspendsTo(blocks[i], b);
      ResumePrologue(SavedVars(blocks[i].terminator, ins), blocks[i].terminator.resumeVar)
    else []
  }

  ghost function WithPrologue(b: CirBlock, ins: seq<set<nat>>, pre: seq<CirStmt>): CirBlock
    requires b.terminator.SuspendAndYield? ==> b.terminator.resumeBlock < |ins|
  {
    CirBlock(b.id, pre + b.stmts + Post(b.terminator, ins), FramedTerm(b.terminator, ins))
  }

  method InsertPrologue(b: CirBlock, restore: PendingRestore, ghost orig: CirBlock, ghost ins: seq<set<nat>>) returns (b': CirBlock)
    requires orig.terminator.SuspendAndYield? ==> orig.terminator.resumeBlock < |ins|
    requires b == WithPrologue(orig, ins, []) && restore.offsets == Offsets(|restore.vars|)
    ensures b' == WithPrologue(orig, ins, ResumePrologue(restore.vars, restore.resumeVar))
  {
    var stmts := [RestoreFrame(restore.vars, restore.offsets, FRAME_PTR_VAR)] + b.stmts;
    stmts := stmts[..1] + [Assign(restore.resumeVar, Var(RESULT_VAR))] + stmts[1..];
    b' := b.(stmts := stmts);
    assert stmts == ResumePrologue(restore.vars, restore.resumeVar) + orig.stmts + Post(orig.terminator, ins);
  }

  /** All blocks after the restores of the suspending blocks `idx`. */
  ghost function Rebuilt(blocks: seq<CirBlock>, ins: seq<set<nat>>, idx: seq<nat>): (fb: seq<CirBlock>)
    requires InRange(blocks, ins) && forall i :: i in idx ==> i < |blocks|
  {
    seq(|blocks|, j requires 0 <= j < |blocks| => WithPrologue(blocks[j], ins, PrologueFrom(blocks, ins, idx, j)))
  }

  lemma {:induction false} RebuildStep(blocks: seq<CirBlock>, ins: seq<set<nat>>, idx: seq<nat>, i: nat)
    requires InRange(blocks, ins) && OneSuspendPerResume(blocks)
    requires forall k :: k in idx ==> k < |blocks| && k != i
    requires i < |blocks| && blocks[i].terminator.SuspendAndYield?
    ensures var r, p := blocks[i].terminator.resumeBlock, RestoreOf(blocks, ins, i);
            && Rebuilt(blocks, ins, idx)[r] == WithPrologue(blocks[r], ins, [])
            && Rebuilt(blocks, ins, idx + [i])
               == Rebuilt(blocks, ins, idx)[r := WithPrologue(blocks[r], ins, ResumePrologue(p.vars, p.resumeVar))]
  {
    PrologueGrows(blocks, ins, idx, i);
  }

  method ApplyRestores(blocks: array<CirBlock>, restores: seq<PendingRestore>, ghost orig: seq<CirBlock>, ghost ins: seq<set<nat>>,
                       ghost idx: seq<nat>)
    requires InRange(orig, ins) && OneSuspendPerResume(orig) && |restores| == |idx| && blocks.Length == |orig|
    requires forall x :: 0 <= x < |idx| ==> idx[x] < |orig| && orig[idx[x]].terminator.SuspendAndYield?
    requires forall x :: 0 <= x < |idx| ==> restores[x] == RestoreOf(orig, ins, idx[x])
    requires forall x, y :: 0 <= x < y < |idx| ==> idx[x] != idx[y]
    requires blocks[..] == Rebuilt(orig, ins, [])
    modifies blocks
    ensures blocks[..] == Rebuilt(orig, ins, idx)
  {
    hide OneSuspendPerResume, Rebuilt, WithPrologue, ResumePrologue, SavedVars;
    for x := 0 to |restores|
      invariant blocks[..] == Rebuilt(orig, ins, idx[..x])
    {
      ghost var i := idx[x];
      assert idx[..x + 1] == idx[..x] + [i];
      assert restores[x] == RestoreOf(orig, ins, i);
      RebuildStep(orig, ins, idx[..x], i);
      var r := restores[x].block;
      var b := InsertPrologue(blocks[r], restores[x], orig[r], ins);
      blocks[r] := b;
    }
    assert idx[..|restores|] == idx;
  }

  /** Where one stage of the pass ends, the next begins. */
  lemma {:induction false} StagesMeet(blocks: seq<CirBlock>, ins: seq<set<nat>>)
    requires InRange(blocks, ins)
    ensures LiveVarsFilled(blocks, ins, |blocks|) == AfterSaves(blocks, ins, [])
    ensures AfterSaves(blocks, ins, Suspending(blocks, |blocks|)) == Rebuilt(blocks, ins, [])
  {
    hide SavedVars;
    forall j | 0 <= j < |blocks|
      ensures LiveVarsFilled(blocks, ins, |blocks|)[j] == AfterSaves(blocks, ins, [])[j]
      ensures AfterSaves(blocks, ins, Suspending(blocks, |blocks|))[j] == Rebuilt(blocks, ins, [])[j]
    {
      assert blocks[j].stmts + [] == blocks[j].stmts && [] + blocks[j].stmts == blocks[j].stmts;
      assert j in Suspending(blocks, |blocks|) <==> blocks[j].terminator.SuspendAndYield?;
    }
  }

  lemma {:induction false} PrologueGrows(blocks: seq<CirBlock>, ins: seq<set<nat>>, idx: seq<nat>, i: nat)
    requires InRange(blocks, ins) && OneSuspendPerResume(blocks)
    requires forall k :: k in idx ==> k < |blocks| && k != i
    requires i < |blocks| && blocks[i].terminator.SuspendAndYield?
    ensures var r := blocks[i].terminator.resumeBlock;
            && PrologueFrom(blocks, ins, idx, r) == []
            && PrologueFrom(blocks, ins, idx + [i], r)
               == ResumePrologue(SavedVars(blocks[i].terminator, ins), blocks[i].terminator.resumeVar)
            && forall b :: b != r ==> PrologueFrom(blocks, ins, idx + [i], b) == PrologueFrom(blocks, ins, idx, b)
  {
    var r := blocks[i].terminator.resumeBlock;
    assert i in idx + [i] && SuspendsTo(blocks[i], r);
    assert forall k :: k in idx + [i] && SuspendsTo(blocks[k], r) ==> k == i;
    forall b | b != r ensures PrologueFrom(blocks, ins, idx + [i], b) == PrologueFrom(blocks, ins, idx, b) {
      assert forall k :: (k in idx + [i] && SuspendsTo(blocks[k], b)) <==> (k in idx && SuspendsTo(blocks[k], b));
      OnlySource(blocks, b);
    }
  }

  lemma {:induction false} OnlySource(blocks: seq<CirBlock>, b: nat)
    requires OneSuspendPerResume(blocks)
    ensures forall i, j :: 0 <= i < |blocks| && 0 <= j < |blocks| && SuspendsTo(blocks[i], b) && SuspendsTo(blocks[j], b) ==> i == j
  {
  }

  /** The pass: path liveness, frames saved before every suspend, restored at every resume block. */
  method ComputeLiveVars(blocks: array<CirBlock>)
    requires ValidTargets(blocks[..]) && OneSuspendPerResume(blocks[..])
    modifies blocks
    ensures Framed(old(blocks[..]), LiveIn(old(blocks[..])), blocks[..])
  {
    ghost var orig := blocks[..];
    if blocks.Length == 0 { return; }
    var ins, _ := LiveSets(blocks[..]);
    TargetsInRange(orig, ins);
    var saves, restores := CollectFrames(blocks, ins);
    StagesMeet(orig, ins);
    ApplySaves(blocks, saves, orig, ins, Suspending(orig, |orig|));
    ApplyRestores(blocks, restores, orig, ins, Suspending(orig, |orig|));
    AllPrologues(orig, ins);
  }

  lemma {:induction false} AllPrologues(blocks: seq<CirBlock>, ins: seq<set<nat>>)
    requires OneSuspendPerResume(blocks) && InRange(blocks, ins)
    ensures Framed(blocks, ins, Rebuilt(blocks, ins, Suspending(blocks, |blocks|)))
  {
    var fb := Rebuilt(blocks, ins, Suspending(blocks, |blocks|));
    hide OneSuspendPerResume, SavedVars, ResumePrologue, Pre, PrologueFrom, Post, FramedTerm;
    forall b | 0 <= b < |blocks|
      ensures FramedBlock(blocks, ins, b, fb[b])
    {
      OnlySource(blocks, b);
      AllSources(blocks, ins, b);
    }
  }

  lemma {:induction false} AllSources(blocks: seq<CirBlock>, ins: seq<set<nat>>, b: nat)
    requires InRange(blocks, ins)
    requires forall i, j :: 0 <= i < |blocks| && 0 <= j < |blocks| && SuspendsTo(blocks[i], b) && SuspendsTo(blocks[j], b) ==> i == j
    ensures PrologueFrom(blocks, ins, Suspending(blocks, |blocks|), b) == Pre(blocks, ins, b)
  {
    hide SavedVars, ResumePrologue;
    var idx := Suspending(blocks, |blocks|);
    if i :| 0 <= i < |blocks| && SuspendsTo(blocks[i], b) {
      assert i in idx;
    }
  }
}
