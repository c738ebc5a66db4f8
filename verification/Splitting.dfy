/** The block-splitting worklist of `lower_mir_function_unconditional` (src/cir_lower.rs). */
module Splitting {
  import opened Cir
  import opened Mir
  import opened Frames
  import opened Lowering

  datatype Work = Work(stmts: seq<Stmt>, terminator: Terminator, id: nat)

  // ----- sorting by id -----

  ghost predicate StrictIds(bs: seq<CirBlock>) {
    forall i, j :: 0 <= i < j < |bs| ==> bs[i].id < bs[j].id
  }

  ghost predicate DistinctBlocks(bs: seq<CirBlock>) {
    forall i, j :: 0 <= i < j < |bs| ==> bs[i].id != bs[j].id
  }

  function InsertById(b: CirBlock, bs: seq<CirBlock>): (r: seq<CirBlock>)
    requires StrictIds(bs) && forall x :: x in bs ==> x.id != b.id
    ensures StrictIds(r) && |r| == |bs| + 1
    ensures forall x :: x in r <==> x == b || x in bs
  {
    if bs == [] || b.id <= bs[0].id then [b] + bs
    else
      var rest := InsertById(b, bs[1..]);
      assert forall x :: x in bs <==> x == bs[0] || x in bs[1..];
      assert forall k :: 0 <= k < |bs[1..]| ==> bs[0].id < bs[1..][k].id;
      assert forall x :: x in rest ==> bs[0].id < x.id;
      assert forall k :: 0 <= k < |rest| ==> rest[k] in rest;
      [bs[0]] + rest
  }

  function SortById(bs: seq<CirBlock>): (r: seq<CirBlock>)
    requires DistinctBlocks(bs)
    ensures StrictIds(r) && |r| == |bs| && forall x :: x in r <==> x in bs
  {
    if bs == [] then [] else
      assert forall x :: x in bs <==> x == bs[0] || x in bs[1..];
      InsertById(bs[0], SortById(bs[1..]))
  }

  lemma {:induction false} StrictIdsGrow(bs: seq<CirBlock>, i: nat, j: nat)
    requires StrictIds(bs) && i <= j < |bs|
    ensures bs[i].id + (j - i) <= bs[j].id
    decreases j - i
  {
    if i < j { StrictIdsGrow(bs, i + 1, j); }
  }

  /** Distinct ids below the number of blocks are dense once sorted. */
  lemma {:induction false} SortedIdsDense(bs: seq<CirBlock>)
    requires StrictIds(bs) && forall b :: b in bs ==> b.id < |bs|
    ensures forall i :: 0 <= i < |bs| ==> bs[i].id == i
  {
    forall i | 0 <= i < |bs| ensures bs[i].id == i {
      StrictIdsGrow(bs, 0, i);
      StrictIdsGrow(bs, i, |bs| - 1);
      assert bs[|bs| - 1] in bs;
    }
  }

  // ----- the worklist invariant -----

  function Pending(work: seq<Work>): nat {
    if work == [] then 0 else Pending(work[..|work| - 1]) + SuspendCount(work[|work| - 1].stmts)
  }

  function Size(work: seq<Work>): nat {
    if work == [] then 0 else Size(work[..|work| - 1]) + 1 + |work[|work| - 1].stmts|
  }

  ghost predicate DistinctIds(done: seq<CirBlock>, work: seq<Work>) {
    && DistinctBlocks(done)
    && (forall i, j :: 0 <= i < j < |work| ==> work[i].id != work[j].id)
    && (forall i, j :: 0 <= i < |done| && 0 <= j < |work| ==> done[i].id != work[j].id)
  }

  ghost predicate Sources(base: nat, next: nat, done: seq<CirBlock>) {
    && (forall a, b, r :: a in done && b in done && SuspendsTo(a, r) && SuspendsTo(b, r) ==> a.id == b.id)
    && (forall r :: base <= r < next ==> HasSource(done, r))
  }

  ghost predicate MirSegments(f: Function, segs: seq<Segment>) {
    forall j :: 0 <= j < |f.blocks| ==>
      f.blocks[j].id < |segs| && segs[f.blocks[j].id] == Segment(f.blocks[j].stmts, f.blocks[j].terminator)
  }

  ghost predicate Suffixes(f: Function, segs: seq<Segment>) {
    forall i :: 0 <= i < |segs| ==> Suffix(f, segs[i])
  }

  ghost predicate DoneOk(f: Function, segs: seq<Segment>, done: seq<CirBlock>) {
    forall b :: b in done ==> b.id < |segs| && LoweredBlock(segs, |f.blocks|, b.id, b, ParamCount(f))
  }

  ghost predicate WorkOk(segs: seq<Segment>, work: seq<Work>) {
    forall w :: w in work ==> w.id < |segs| && segs[w.id] == Segment(w.stmts, w.terminator)
  }

  /** Every id handed out so far stands for one segment, is owned by one
      finished block or one worklist entry, and fresh ids are resume blocks. */
  ghost predicate Inv(f: Function, segs: seq<Segment>, done: seq<CirBlock>, work: seq<Work>) {
    && |segs| == |done| + |work| && |f.blocks| <= |segs|
    && |segs| + Pending(work) == |f.blocks| + TotalSuspends(f.blocks)
    && MirSegments(f, segs) && Suffixes(f, segs)
    && DoneOk(f, segs, done)
    && WorkOk(segs, work)
    && DistinctIds(done, work)
    && Sources(|f.blocks|, |segs|, done)
  }

  lemma {:induction false} EndsWithGrows(segs: seq<Segment>, s: Segment, base: nat, seg: Segment, t: CirTerminator, pc: nat)
    requires EndsWith(segs, base, seg, t, pc)
    ensures EndsWith(segs + [s], base, seg, t, pc)
  {
  }

  /** A block without suspension is finished. */
  lemma {:induction false} PlainStep(f: Function, segs: seq<Segment>, done: seq<CirBlock>, rest: seq<Work>, w: Work, b: CirBlock)
    requires Inv(f, segs, done, rest + [w]) && SplitAt(w.stmts) == |w.stmts|
    requires b == CirBlock(w.id, TranslateAll(w.stmts, ParamCount(f)), TranslateTerminator(w.terminator, ParamCount(f)))
    ensures Inv(f, segs, done + [b], rest)
  {
    hide EndsWith, TranslateAll, TranslateTerminator, Sources, DistinctIds, TotalSuspends, Suffixes, MirSegments;
    var work := rest + [w];
    assert work[..|work| - 1] == rest && w in work;
    NoSuspends(w.stmts);
    assert forall x :: x in rest ==> x in work;
    assert forall x :: x in done + [b] <==> x in done || x == b;
    PlainBlock(segs, |f.blocks|, w, b, ParamCount(f));
    PlainIds(done, rest, w, b);
    PlainSources(|f.blocks|, |segs|, done, b);
  }

  lemma {:induction false} PlainBlock(segs: seq<Segment>, base: nat, w: Work, b: CirBlock, pc: nat)
    requires w.id < |segs| && segs[w.id] == Segment(w.stmts, w.terminator) && SplitAt(w.stmts) == |w.stmts|
    requires b == CirBlock(w.id, TranslateAll(w.stmts, pc), TranslateTerminator(w.terminator, pc))
    ensures LoweredBlock(segs, base, w.id, b, pc) && !b.terminator.SuspendAndYield?
  {
    assert w.stmts[..|w.stmts|] == w.stmts;
  }

  lemma {:induction false} PlainIds(done: seq<CirBlock>, rest: seq<Work>, w: Work, b: CirBlock)
    requires DistinctIds(done, rest + [w]) && b.id == w.id
    ensures DistinctIds(done + [b], rest)
  {
    var work := rest + [w];
    assert forall i :: 0 <= i < |rest| ==> rest[i] == work[i];
    assert work[|rest|] == w;
  }

  lemma {:induction false} PlainSources(base: nat, next: nat, done: seq<CirBlock>, b: CirBlock)
    requires Sources(base, next, done) && !b.terminator.SuspendAndYield?
    ensures Sources(base, next, done + [b])
  {
    assert forall x :: x in done + [b] <==> x in done || x == b;
    forall r | base <= r < next ensures HasSource(done + [b], r) {
      assert HasSource(done, r);
      var i :| 0 <= i < |done| && SuspendsTo(done[i], r);
      assert SuspendsTo((done + [b])[i], r);
    }
  }

  /** At a suspension the block ends, and the rest of it is queued under a fresh id. */
  lemma {:induction false} SplitStep(f: Function, segs: seq<Segment>, done: seq<CirBlock>, rest: seq<Work>, w: Work, b: CirBlock)
    requires Inv(f, segs, done, rest + [w]) && SplitAt(w.stmts) < |w.stmts|
    requires var k, pc := SplitAt(w.stmts), ParamCount(f);
             var (effect, args) := SuspendEffectAndArgs(w.stmts[k].op, pc);
             b == CirBlock(w.id, TranslateAll(w.stmts[..k], pc),
                           SuspendAndYield(effect, args, |segs|, VarOf(w.stmts[k].dst, pc), []))
    ensures var k := SplitAt(w.stmts);
            Inv(f, segs + [Segment(w.stmts[k + 1..], w.terminator)], done + [b],
                rest + [Work(w.stmts[k + 1..], w.terminator, |segs|)])
  {
    hide TranslateAll, SuspendEffectAndArgs, Sources, DistinctIds, TotalSuspends, LoweredBlock, MirSegments, DoneOk, Suffixes;
    var k := SplitAt(w.stmts);
    var work, w' := rest + [w], Work(w.stmts[k + 1..], w.terminator, |segs|);
    var s := Segment(w'.stmts, w'.terminator);
    assert work[..|work| - 1] == rest && (rest + [w'])[..|rest|] == rest && w in work;
    SuspendsAfterSplit(w.stmts);
    MirSegmentsGrow(f, segs, s, w.id, k + 1);
    SplitBlocks(f, segs, done, w, b, s);
    SplitWork(segs, rest, w, s, w');
    SplitIds(segs, f, done, rest, w, b, w');
    SplitSources(f, segs, done, b);
  }

  lemma {:induction false} MirSegmentsGrow(f: Function, segs: seq<Segment>, s: Segment, i: nat, k: nat)
    requires MirSegments(f, segs) && Suffixes(f, segs) && i < |segs| && k <= |segs[i].stmts|
    requires s == Segment(segs[i].stmts[k..], segs[i].terminator)
    ensures MirSegments(f, segs + [s]) && Suffixes(f, segs + [s])
  {
    hide Suffix;
    SuffixTail(f, segs[i], k);
  }

  lemma {:induction false} SplitWork(segs: seq<Segment>, rest: seq<Work>, w: Work, s: Segment, w': Work)
    requires WorkOk(segs, rest + [w]) && w'.id == |segs| && s == Segment(w'.stmts, w'.terminator)
    ensures WorkOk(segs + [s], rest + [w'])
  {
    forall x | x in rest + [w'] ensures x.id < |segs| + 1 && (segs + [s])[x.id] == Segment(x.stmts, x.terminator) {
      if x in rest { assert x in rest + [w]; }
    }
  }

  lemma {:induction false} ResumeBound(segs: seq<Segment>, base: nat, b: CirBlock, pc: nat)
    requires b.id < |segs| && LoweredBlock(segs, base, b.id, b, pc) && b.terminator.SuspendAndYield?
    ensures b.terminator.resumeBlock < |segs|
  {
  }

  lemma {:induction false} SplitBlocks(f: Function, segs: seq<Segment>, done: seq<CirBlock>, w: Work, b: CirBlock, s: Segment)
    requires DoneOk(f, segs, done)
    requires w.id < |segs| && segs[w.id] == Segment(w.stmts, w.terminator) && |f.blocks| <= |segs|
    requires SplitAt(w.stmts) < |w.stmts| && s == Segment(w.stmts[SplitAt(w.stmts) + 1..], w.terminator)
    requires var k, pc := SplitAt(w.stmts), ParamCount(f);
             var (effect, args) := SuspendEffectAndArgs(w.stmts[k].op, pc);
             b == CirBlock(w.id, TranslateAll(w.stmts[..k], pc),
                           SuspendAndYield(effect, args, |segs|, VarOf(w.stmts[k].dst, pc), []))
    ensures DoneOk(f, segs + [s], done + [b])
  {
    forall x | x in done + [b]
      ensures x.id < |segs| + 1 && LoweredBlock(segs + [s], |f.blocks|, x.id, x, ParamCount(f))
    {
      if x in done {
        EndsWithGrows(segs, s, |f.blocks|, segs[x.id], x.terminator, ParamCount(f));
      }
    }
  }

  lemma {:induction false} SplitIds(segs: seq<Segment>, f: Function, done: seq<CirBlock>, rest: seq<Work>, w: Work, b: CirBlock, w': Work)
    requires DistinctIds(done, rest + [w]) && b.id == w.id && w'.id == |segs|
    requires DoneOk(f, segs, done) && WorkOk(segs, rest + [w])
    ensures DistinctIds(done + [b], rest + [w'])
  {
    hide LoweredBlock;
    var work := rest + [w];
    assert forall i :: 0 <= i < |rest| ==> rest[i] == work[i] && work[i] in work;
    assert work[|rest|] == w && w in work;
    assert forall i :: 0 <= i < |done| ==> done[i] in done;
  }

  lemma {:induction false} SplitSources(f: Function, segs: seq<Segment>, done: seq<CirBlock>, b: CirBlock)
    requires Sources(|f.blocks|, |segs|, done) && SuspendsTo(b, |segs|) && DoneOk(f, segs, done)
    ensures Sources(|f.blocks|, |segs| + 1, done + [b])
  {
    hide LoweredBlock;
    var base, next := |f.blocks|, |segs|;
    forall x | x in done && x.terminator.SuspendAndYield? ensures x.terminator.resumeBlock < next {
      ResumeBound(segs, base, x, ParamCount(f));
    }
    assert forall x :: x in done + [b] <==> x in done || x == b;
    forall r | base <= r < next + 1 ensures HasSource(done + [b], r) {
      if r < next {
        assert HasSource(done, r);
        var i :| 0 <= i < |done| && SuspendsTo(done[i], r);
        assert SuspendsTo((done + [b])[i], r);
      } else {
        assert SuspendsTo((done + [b])[|done|], r);
      }
    }
  }

  lemma {:induction false} NoSuspends(stmts: seq<Stmt>)
    requires SplitAt(stmts) == |stmts|
    ensures SuspendCount(stmts) == 0
  {
    if stmts != [] { NoSuspends(stmts[1..]); }
  }

  lemma {:induction false} SuspendsAfterSplit(stmts: seq<Stmt>)
    requires SplitAt(stmts) < |stmts|
    ensures SuspendCount(stmts) == 1 + SuspendCount(stmts[SplitAt(stmts) + 1..])
  {
    if !SuspendsStmt(stmts[0]) {
      SuspendsAfterSplit(stmts[1..]);
      assert stmts[1..][SplitAt(stmts[1..]) + 1..] == stmts[SplitAt(stmts) + 1..];
    }
  }

  // ----- the loop -----

  /** Scans a segment up to its first suspension. */
  method ScanSegment(stmts: seq<Stmt>, pc: nat) returns (current: seq<CirStmt>, k: nat)
    ensures k == SplitAt(stmts) && current == TranslateAll(stmts[..k], pc)
  {
    current, k := [], 0;
    while k < |stmts| && !SuspendsStmt(stmts[k])
      invariant k <= |stmts| && k + SplitAt(stmts[k..]) == SplitAt(stmts)
      invariant current == TranslateAll(stmts[..k], pc)
    {
      TranslateSnoc(stmts[..k], stmts[k], pc);
      assert stmts[..k + 1] == stmts[..k] + [stmts[k]];
      assert stmts[k..][1..] == stmts[k + 1..];
      current := current + [TranslateStmt(stmts[k], pc)];
      k := k + 1;
    }
  }

  lemma {:induction false} TranslateSnoc(stmts: seq<Stmt>, s: Stmt, pc: nat)
    ensures TranslateAll(stmts + [s], pc) == TranslateAll(stmts, pc) + [TranslateStmt(s, pc)]
  {
    if stmts == [] {
      assert [] + [s] == [s];
    } else {
      assert (stmts + [s])[1..] == stmts[1..] + [s];
      TranslateSnoc(stmts[1..], s, pc);
    }
  }

  ghost function InitialSegments(f: Function): (segs: seq<Segment>)
    requires DenseIds(f)
    ensures |segs| == |f.blocks|
    ensures forall j :: 0 <= j < |f.blocks| ==> segs[f.blocks[j].id] == Segment(f.blocks[j].stmts, f.blocks[j].terminator)
  {
    seq(|f.blocks|, id requires 0 <= id < |f.blocks| =>
      DenseIdsCover(f, id);
      var b := f.blocks[BlockIndex(f.blocks, id)];
      Segment(b.stmts, b.terminator))
  }

  function InitialWork(blocks: seq<Block>): (work: seq<Work>)
    ensures |work| == |blocks|
    ensures forall j :: 0 <= j < |blocks| ==> work[j] == Work(blocks[j].stmts, blocks[j].terminator, blocks[j].id)
  {
    if blocks == [] then [] else [Work(blocks[0].stmts, blocks[0].terminator, blocks[0].id)] + InitialWork(blocks[1..])
  }

  lemma {:induction false} PendingCons(w: Work, work: seq<Work>)
    ensures Pending([w] + work) == SuspendCount(w.stmts) + Pending(work)
  {
    if work == [] {
      assert [w] + work == [w] && [w][..0] == [];
    } else {
      var all := [w] + work;
      assert all[..|all| - 1] == [w] + work[..|work| - 1];
      PendingCons(w, work[..|work| - 1]);
    }
  }

  lemma {:induction false} InitialPending(blocks: seq<Block>)
    ensures Pending(InitialWork(blocks)) == TotalSuspends(blocks)
  {
    if blocks != [] {
      InitialPending(blocks[1..]);
      PendingCons(Work(blocks[0].stmts, blocks[0].terminator, blocks[0].id), InitialWork(blocks[1..]));
    }
  }

  lemma {:induction false} InitialDistinct(f: Function)
    requires DenseIds(f)
    ensures DistinctIds([], InitialWork(f.blocks))
  {
    hide InitialWork;
  }

  lemma {:induction false} InitialSuffixes(f: Function)
    requires DenseIds(f)
    ensures Suffixes(f, InitialSegments(f))
  {
    forall id | 0 <= id < |f.blocks| ensures Suffix(f, InitialSegments(f)[id]) {
      DenseIdsCover(f, id);
      var j := BlockIndex(f.blocks, id);
      assert f.blocks[j].stmts[0..] == f.blocks[j].stmts;
      assert InitialSegments(f)[id] == SuffixAt(f, j, 0);
    }
  }

  lemma {:induction false} InitialInv(f: Function)
    requires DenseIds(f)
    ensures Inv(f, InitialSegments(f), [], InitialWork(f.blocks))
  {
    hide LoweredBlock, TotalSuspends, SuspendCount, DistinctIds, InitialWork, InitialSegments;
    InitialPending(f.blocks);
    InitialDistinct(f);
    InitialSuffixes(f);
    hide Suffixes;
    var work := InitialWork(f.blocks);
    forall w | w in work ensures w.id < |f.blocks| && InitialSegments(f)[w.id] == Segment(w.stmts, w.terminator) {
      var j :| 0 <= j < |work| && work[j] == w;
    }
  }

  /** When the worklist is empty the finished blocks, sorted by id, are the lowered function. */
  lemma {:induction false} FinalInv(f: Function, segs: seq<Segment>, done: seq<CirBlock>)
    requires Inv(f, segs, done, [])
    ensures DistinctBlocks(done) && Lowered(f, segs, SortById(done))
    ensures forall i :: 0 <= i < |done| ==> SortById(done)[i].id == i
  {
    hide LoweredBlock, TotalSuspends, SortById, Sources;
    var blocks := SortById(done);
    assert forall b :: b in blocks ==> b.id < |blocks|;
    SortedIdsDense(blocks);
    forall i | 0 <= i < |blocks| ensures LoweredBlock(segs, |f.blocks|, i, blocks[i], ParamCount(f)) {
      assert blocks[i] in blocks;
    }
    FinalSources(|f.blocks|, done, blocks);
  }

  lemma {:induction false} FinalSources(base: nat, done: seq<CirBlock>, blocks: seq<CirBlock>)
    requires Sources(base, |blocks|, done) && forall b :: b in blocks <==> b in done
    requires forall i :: 0 <= i < |blocks| ==> blocks[i].id == i
    ensures OneSource(blocks) && EverySource(base, blocks)
  {
    forall i, j, r | 0 <= i < |blocks| && 0 <= j < |blocks| && SuspendsTo(blocks[i], r) && SuspendsTo(blocks[j], r)
      ensures i == j
    {
      assert blocks[i] in blocks && blocks[j] in blocks;
    }
    forall r | base <= r < |blocks| ensures HasSource(blocks, r) {
      assert HasSource(done, r);
      var i :| 0 <= i < |done| && SuspendsTo(done[i], r);
      assert done[i] in blocks;
    }
  }

  lemma {:induction false} SizeSnoc(rest: seq<Work>, w: Work)
    ensures Size(rest + [w]) == Size(rest) + 1 + |w.stmts|
  {
    assert (rest + [w])[..|rest|] == rest;
  }

  /** Processes one worklist entry: a finished block and, after a suspension, the rest under a fresh id. */
  method Process(f: Function, pc: nat, w: Work, nextId: nat, ghost segs: seq<Segment>, ghost done: seq<CirBlock>, ghost rest: seq<Work>)
    returns (b: CirBlock, queued: seq<Work>, ghost segs': seq<Segment>)
    requires Inv(f, segs, done, rest + [w]) && nextId == |segs| && pc == ParamCount(f)
    ensures Inv(f, segs', done + [b], rest + queued)
    ensures |segs'| == nextId + |queued| && Size(rest + queued) < Size(rest + [w])
  {
    hide Inv, TranslateAll, TranslateTerminator, SuspendEffectAndArgs, SplitAt, Size;
    SizeSnoc(rest, w);
    var current, k := ScanSegment(w.stmts, pc);
    if k == |w.stmts| {
      assert w.stmts[..k] == w.stmts;
      b := CirBlock(w.id, current, TranslateTerminator(w.terminator, pc));
      PlainStep(f, segs, done, rest, w, b);
      queued, segs' := [], segs;
      assert rest + queued == rest;
    } else {
      var (effect, args) := SuspendEffectAndArgs(w.stmts[k].op, pc);
      b := CirBlock(w.id, current, SuspendAndYield(effect, args, nextId, VarOf(w.stmts[k].dst, pc), []));
      SplitStep(f, segs, done, rest, w, b);
      var w' := Work(w.stmts[k + 1..], w.terminator, nextId);
      SizeSnoc(rest, w');
      queued, segs' := [w'], segs + [Segment(w'.stmts, w'.terminator)];
    }
  }

  /** One CIR block per MIR block plus one per suspension, with dense ids. */
  method LowerBlocks(f: Function) returns (blocks: seq<CirBlock>, ghost segs: seq<Segment>)
    requires DenseIds(f)
    ensures Lowered(f, segs, blocks)
  {
    hide Inv, Lowered, DenseIds, InitialSegments, InitialWork, SortById, Size;
    var pc := |f.params| + |f.captures|;
    var nextId := |f.blocks|;
    var done: seq<CirBlock> := [];
    var work := InitialWork(f.blocks);
    segs := InitialSegments(f);
    InitialInv(f);
    while work != []
      invariant Inv(f, segs, done, work) && nextId == |segs|
      decreases Size(work)
    {
      var w, rest := work[|work| - 1], work[..|work| - 1];
      assert work == rest + [w];
      var b, queued;
      b, queued, segs := Process(f, pc, w, nextId, segs, done, rest);
      done, work, nextId := done + [b], rest + queued, nextId + |queued|;
    }
    FinalInv(f, segs, done);
    blocks := SortById(done);
    assert forall i :: 0 <= i < |blocks| ==> blocks[i].id == i;
  }
}
