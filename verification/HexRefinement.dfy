/** On the stream of any structured program, back-patching by linear scans
    produces what structural recursion over the program produces
    (bootstrap/fixup_hex.py). */
module HexRefinement {
  import opened Options
  import opened Bytecode
  import opened HexFixup
  import opened HexTree
  import opened HexScan
  import opened HexBranches
  import opened HexFunctions

  // ----- markers sit directly before the word they concern -----

  predicate Claims(line: Line) {
    line.Mark? && (line.m.Test? || IsJump(line) || line.m.FnEnd? || line.m.Const?)
  }

  predicate Tight(lines: seq<Line>) {
    forall i :: 0 <= i < |lines| && Claims(lines[i]) ==> i + 1 < |lines| && lines[i + 1].Word?
  }

  lemma {:induction false} TightJoin(xs: seq<Line>, ys: seq<Line>)
    requires Tight(xs) && Tight(ys)
    ensures Tight(xs + ys)
  {
    var zs := xs + ys;
    forall i | 0 <= i < |zs| && Claims(zs[i])
      ensures i + 1 < |zs| && zs[i + 1].Word?
    {
      if i < |xs| {
        assert xs[i] == zs[i] && xs[i + 1] == zs[i + 1];
      } else {
        assert ys[i - |xs|] == zs[i];
      }
    }
  }

  lemma {:induction false} EmitTight(code: Code)
    ensures Tight(Emit(code))
    decreases code
  {
    hide EmitItem, Tight;
    if code.Empty? {
      assert Tight([]) by { TightShort(); }
    } else {
      EmitItemTight(code.head);
      EmitTight(code.tail);
      TightJoin(EmitItem(code.head), Emit(code.tail));
    }
  }

  lemma {:induction false} TightShort()
    ensures Tight([])
    ensures forall a: Line, b: nat :: Tight([a, Word(b)])
    ensures forall a: Line, b: nat, c: Line :: !Claims(c) ==> Tight([a, Word(b), c])
    ensures forall c: Line :: !Claims(c) ==> Tight([c])
  {
  }

  lemma {:induction false} EmitTestsTight(c: Construct, tests: Tests)
    ensures Tight(EmitTests(c, tests))
    decreases tests
  {
    hide Emit, Tight;
    TightShort();
    if tests.TestAt? {
      EmitTight(tests.pre);
      EmitTestsTight(c, tests.rest);
      TightJoin(Emit(tests.pre), [Mark(Test(c)), Word(tests.w)]);
      TightJoin(Emit(tests.pre) + [Mark(Test(c)), Word(tests.w)], EmitTests(c, tests.rest));
    }
  }

  lemma {:induction false} EmitItemTight(item: Item)
    ensures Tight(EmitItem(item))
    decreases item
  {
    hide Emit, EmitTests, Tight;
    TightShort();
    match item
    case Branch(c, tests, body, jmp, other) =>
      EmitTestsTight(c, tests);
      EmitTight(body);
      EmitTight(other);
      var a := [Mark(Open(c))] + EmitTests(c, tests);
      var mid := [Mark(Skip(c)), Word(jmp), Mark(Mid(c))];
      TightJoin([Mark(Open(c))], EmitTests(c, tests));
      TightJoin(a, Emit(body));
      TightJoin(a + Emit(body), mid);
      TightJoin(a + Emit(body) + mid, Emit(other));
      TightJoin(a + Emit(body) + mid + Emit(other), [Mark(Close(c))]);
    case OrElse(tests, skip, rhs, done, fill) =>
      EmitTestsTight(OrC, tests);
      EmitTight(rhs);
      EmitTight(fill);
      var a := [Mark(Open(OrC))] + EmitTests(OrC, tests);
      var m1 := [Mark(OrFillJmp), Word(skip), Mark(Mid(OrC))];
      var m2 := [Mark(OrContJmp), Word(done), Mark(OrFill)];
      TightJoin([Mark(Open(OrC))], EmitTests(OrC, tests));
      TightJoin(a, m1);
      TightJoin(a + m1, Emit(rhs));
      TightJoin(a + m1 + Emit(rhs), m2);
      TightJoin(a + m1 + Emit(rhs) + m2, Emit(fill));
      TightJoin(a + m1 + Emit(rhs) + m2 + Emit(fill), [Mark(Close(OrC))]);
    case Fn(skip, body, closure) =>
      EmitTight(body);
      var a := [Mark(FnSkip), Word(skip), Mark(FnStart)];
      TightJoin(a, Emit(body));
      TightJoin(a + Emit(body), [Mark(FnEnd), Word(closure)]);
    case Instr(w) =>
    case Note(b) =>
    case Load(v, w) =>
  }

  // ----- which patch a line gets -----

  function Get(p: Patches, j: nat): Option<nat> { if j in p then Some(p[j]) else None }

  lemma {:induction false} TestsAt(lines: seq<Line>, jmpfs: Targets, n: nat, j: nat)
    requires n <= |lines| && Tight(lines)
    ensures Get(PatchTests(lines, jmpfs, n), j) ==
            if 0 < j <= n && lines[j - 1].Mark? && lines[j - 1].m.Test? && j in jmpfs && jmpfs[j].Some?
            then Some(PatchJmpF(lines[j].w, jmpfs[j].value - WordCount(lines, j))) else None
  {
    if n > 0 {
      TestsAt(lines, jmpfs, n - 1, j);
      assert Claims(lines[n - 1]) ==> NextWord(lines, n) == Some(n);
    }
  }

  lemma {:induction false} JumpsAt(lines: seq<Line>, jmps: Targets, ends: map<nat, nat>, n: nat, acc: Patches, j: nat)
    requires n <= |lines| && Tight(lines)
    ensures Get(PatchJumps(lines, jmps, ends, n, acc), j) ==
            if 0 < j <= n && IsJump(lines[j - 1]) && JumpTarget(lines, jmps, ends, j).Some?
            then Some(PatchJmp(JumpTarget(lines, jmps, ends, j).value - WordCount(lines, j))) else Get(acc, j)
  {
    hide JumpTarget;
    if n > 0 {
      JumpsAt(lines, jmps, ends, n - 1, acc, j);
      assert Claims(lines[n - 1]) ==> NextWord(lines, n) == Some(n);
    }
  }

  predicate ConstsIn(lines: seq<Line>, pool: seq<Value>) {
    forall i :: 0 <= i < |lines| && lines[i].Mark? && lines[i].m.Const? ==> lines[i].m.value in pool
  }

  lemma {:induction false} ConstsAt(lines: seq<Line>, pool: seq<Value>, n: nat, acc: Patches, j: nat)
    requires n <= |lines| && Tight(lines) && ConstsIn(lines, pool)
    requires 0 < j <= n && lines[j - 1].Mark? && lines[j - 1].m.Const? ==>
               Opcode(lines[j].w) == OP_CONSTU || Opcode(lines[j].w) == OP_PERFORM
    ensures Get(PatchConsts(lines, pool, n, acc), j) ==
            if 0 < j <= n && lines[j - 1].Mark? && lines[j - 1].m.Const?
            then Some(PatchLoad(lines[j].w, IndexIn(pool, lines[j - 1].m.value))) else Get(acc, j)
  {
    hide IndexIn, Opcode;
    if n > 0 {
      ConstsAt(lines, pool, n - 1, acc, j);
      assert Claims(lines[n - 1]) ==> NextWord(lines, n) == Some(n);
    }
  }

  lemma {:induction false} FnsAway(lines: seq<Line>, n: nat, acc: Patches, j: nat)
    requires n <= |lines| && Tight(lines) && (j == 0 || j > |lines| || lines[j - 1] != Mark(FnEnd))
    ensures Get(PatchFns(lines, FnEnds(lines), n, acc), j) == Get(acc, j)
  {
    hide FnEnds, Opcode;
    if n > 0 {
      FnsAway(lines, n - 1, acc, j);
      if n - 1 in FnEnds(lines) {
        EndsAreEnds(lines, n - 1);
        assert Claims(lines[FnEnds(lines)[n - 1]]);
        assert NextWord(lines, FnEnds(lines)[n - 1] + 1) == Some(FnEnds(lines)[n - 1] + 1);
      }
    }
  }

  lemma {:induction false} FnsAt(lines: seq<Line>, n: nat, acc: Patches, s: nat)
    requires s < n <= |lines| && Tight(lines) && s in FnEnds(lines)
    requires var j := FnEnds(lines)[s] + 1; j < |lines| && lines[j].Word? && Opcode(lines[j].w) == OP_CLOSURE
    ensures var j := FnEnds(lines)[s] + 1;
            Get(PatchFns(lines, FnEnds(lines), n, acc), j) == Some(PatchClosure(lines[j].w, FnCount(lines, s) + 1))
    decreases n
  {
    hide FnEnds, Opcode;
    var ends := FnEnds(lines);
    var j := ends[s] + 1;
    EndsAreEnds(lines, s);
    assert NextWord(lines, j) == Some(j);
    if s < n - 1 {
      FnsAt(lines, n - 1, acc, s);
      if n - 1 in ends {
        EndsAreEnds(lines, n - 1);
        assert Claims(lines[ends[n - 1]]);
        assert NextWord(lines, ends[n - 1] + 1) == Some(ends[n - 1] + 1);
        if ends[n - 1] == ends[s] { EndsOneToOne(lines, n - 1, s); }
      }
    }
  }

  // ----- the output, line by line -----

  function Final(lines: seq<Line>): Scan { ScanRange(lines, 0, |lines|, START) }

  function Out(lines: seq<Line>): (out: seq<Line>)
    ensures |out| == |lines|
  {
    Output(lines, AllPatches(lines))
  }

  function Pool(lines: seq<Line>): seq<Value> { PoolOf(lines, |lines|) }

  /** What is used of a structured stream from here on. */
  ghost predicate Structured(lines: seq<Line>) {
    && Tight(lines)
    && (forall i :: 0 <= i < |lines| ==> ConstOk(lines, i))
    && (forall l :: l in Final(lines).jmps ==> BranchJump(lines, l))
  }

  lemma {:induction false} PoolHolds(lines: seq<Line>)
    ensures ConstsIn(lines, Pool(lines))
  {
    forall i | 0 <= i < |lines| && lines[i].Mark? && lines[i].m.Const?
      ensures lines[i].m.value in Pool(lines)
    {
      PoolGrows(lines, i, |lines|);
    }
  }

  /** The patch of line `j`: the passes before it are visible only where the
      later ones leave the line alone. */
  lemma {:induction false} PatchAt(lines: seq<Line>, j: nat)
    requires Structured(lines) && j < |lines| && (j > 0 ==> lines[j - 1] != Mark(FnEnd))
    ensures ConstsIn(lines, Pool(lines))
    ensures var f, ends := Final(lines), FnEnds(lines);
            var prev := if j == 0 then Comment(false) else lines[j - 1];
            Get(AllPatches(lines), j) ==
            if prev.Mark? && prev.m.Const? then
              Some(PatchLoad(lines[j].w, IndexIn(Pool(lines), prev.m.value)))
            else if IsJump(prev) && JumpTarget(lines, f.jmps, ends, j).Some? then
              Some(PatchJmp(JumpTarget(lines, f.jmps, ends, j).value - WordCount(lines, j)))
            else if prev.Mark? && prev.m.Test? && j in f.jmpfs && f.jmpfs[j].Some? then
              Some(PatchJmpF(lines[j].w, f.jmpfs[j].value - WordCount(lines, j)))
            else None
  {
    hide FnEnds, JumpTarget, PatchTests, PatchJumps, PatchFns, PatchConsts, ScanRange, IndexIn, PoolOf, Opcode, NextWord;
    var f, ends := Final(lines), FnEnds(lines);
    PoolHolds(lines);
    var tests := PatchTests(lines, f.jmpfs, |lines|);
    var jumps := PatchJumps(lines, f.jmps, ends, |lines|, tests);
    var fns := PatchFns(lines, ends, |lines|, jumps);
    TestsAt(lines, f.jmpfs, |lines|, j);
    JumpsAt(lines, f.jmps, ends, |lines|, tests, j);
    FnsAway(lines, |lines|, jumps, j);
    if j > 0 && lines[j - 1].Mark? && lines[j - 1].m.Const? { ConstWord(lines, j); }
    ConstsAt(lines, Pool(lines), |lines|, fns, j);
  }

  lemma {:induction false} ConstWord(lines: seq<Line>, j: nat)
    requires Structured(lines) && 0 < j < |lines| && lines[j - 1].Mark? && lines[j - 1].m.Const?
    ensures lines[j].Word? && (Opcode(lines[j].w) == OP_CONSTU || Opcode(lines[j].w) == OP_PERFORM)
  {
    assert ConstOk(lines, j - 1) && Claims(lines[j - 1]);
    assert NextWord(lines, j) == Some(j);
  }

  lemma {:induction false} PlainLine(lines: seq<Line>, i: nat)
    requires Structured(lines) && i < |lines| && (i > 0 ==> !Claims(lines[i - 1]))
    ensures Out(lines)[i] == lines[i]
  {
    hide Structured, AllPatches, JumpTarget, FnEnds, Final, IndexIn, Pool;
    PatchAt(lines, i);
  }

  lemma {:induction false} TestLine(lines: seq<Line>, i: nat, target: nat)
    requires Structured(lines) && i + 1 < |lines| && lines[i].Mark? && lines[i].m.Test? && lines[i + 1].Word?
    requires Lookup(Final(lines).jmpfs, i + 1) == Some(Some(target))
    ensures Out(lines)[i + 1] == Word(PatchJmpF(lines[i + 1].w, target - WordCount(lines, i + 1)))
  {
    hide Structured, AllPatches, JumpTarget, FnEnds, Final, IndexIn, Pool;
    PatchAt(lines, i + 1);
  }

  lemma {:induction false} JumpLine(lines: seq<Line>, i: nat, target: nat)
    requires Structured(lines) && i + 1 < |lines| && BranchJump(lines, i + 1) && lines[i + 1].Word?
    requires Lookup(Final(lines).jmps, i + 1) == Some(Some(target))
    ensures Out(lines)[i + 1] == Word(PatchJmp(target - WordCount(lines, i + 1)))
  {
    hide Structured, AllPatches, FnEnds, Final, IndexIn, Pool;
    PatchAt(lines, i + 1);
  }

  lemma {:induction false} LoadLine(lines: seq<Line>, i: nat)
    requires Structured(lines) && i + 1 < |lines| && lines[i].Mark? && lines[i].m.Const? && lines[i + 1].Word?
    ensures lines[i].m.value in Pool(lines)
    ensures Out(lines)[i + 1] == Word(PatchLoad(lines[i + 1].w, IndexIn(Pool(lines), lines[i].m.value)))
  {
    hide Structured, AllPatches, JumpTarget, FnEnds, Final, IndexIn, Pool;
    PoolHolds(lines);
    PatchAt(lines, i + 1);
  }

  lemma {:induction false} SkipLine(lines: seq<Line>, i: nat)
    requires Structured(lines) && i + 2 < |lines| && lines[i] == Mark(FnSkip) && lines[i + 1].Word? && lines[i + 2] == Mark(FnStart)
    requires i + 2 in FnEnds(lines)
    ensures FnEnds(lines)[i + 2] + 1 < |lines|
    ensures Out(lines)[i + 1] ==
            Word(PatchJmp(WordCount(lines, FnEnds(lines)[i + 2] + 1) - WordCount(lines, i + 1)))
  {
    hide AllPatches, FnEnds, Final, IndexIn, Pool;
    var end := FnEnds(lines)[i + 2];
    EndsAreEnds(lines, i + 2);
    assert Claims(lines[end]);
    assert InstrAfter(lines, end) == Some(WordCount(lines, end + 1));
    assert i + 1 !in Final(lines).jmps;
    assert NextFnStart(lines, i + 2) == Some(i + 2);
    PatchAt(lines, i + 1);
  }

  lemma {:induction false} ClosureLine(lines: seq<Line>, s: nat)
    requires Structured(lines) && s in FnEnds(lines)
    requires var j := FnEnds(lines)[s] + 1; j < |lines| && lines[j].Word? && Opcode(lines[j].w) == OP_CLOSURE
    ensures s < |lines|
    ensures var j := FnEnds(lines)[s] + 1; Out(lines)[j] == Word(PatchClosure(lines[j].w, FnCount(lines, s) + 1))
  {
    hide FnEnds, PatchTests, PatchJumps, PatchFns, PatchConsts, ScanRange, IndexIn, PoolOf, Opcode, NextWord;
    var f, ends := Final(lines), FnEnds(lines);
    var j := ends[s] + 1;
    EndsAreEnds(lines, s);
    PoolHolds(lines);
    var jumps := PatchJumps(lines, f.jmps, ends, |lines|, PatchTests(lines, f.jmpfs, |lines|));
    FnsAt(lines, |lines|, jumps, s);
    ConstsAt(lines, Pool(lines), |lines|, PatchFns(lines, ends, |lines|, jumps), j);
  }

  // ----- the output, construct by construct -----

  /** No marker just before `pos` waits for a word. */
  predicate Free(lines: seq<Line>, pos: nat) {
    pos <= |lines| && (pos > 0 ==> !Claims(lines[pos - 1]))
  }

  /** The stretch `xs` of the input at `pos` comes out as `ys`. */
  predicate Becomes(lines: seq<Line>, pos: nat, xs: seq<Line>, ys: seq<Line>) {
    At(lines, pos, xs) && At(Out(lines), pos, ys) && |xs| == |ys| && Free(lines, pos) && Free(lines, pos + |xs|)
  }

  lemma {:induction false} BecomesJoin(lines: seq<Line>, pos: nat, xs: seq<Line>, ys: seq<Line>, xs': seq<Line>, ys': seq<Line>)
    requires Becomes(lines, pos, xs, ys) && Becomes(lines, pos + |xs|, xs', ys')
    ensures Becomes(lines, pos, xs + xs', ys + ys')
  {
    hide At, Out, Free;
    AtSplit(lines, pos, xs, xs');
    AtSplit(Out(lines), pos, ys, ys');
  }

  lemma {:induction false} NothingBecomes(lines: seq<Line>, pos: nat)
    requires Free(lines, pos)
    ensures Becomes(lines, pos, [], [])
  {
    hide Out;
  }

  lemma {:induction false} OneBecomes(lines: seq<Line>, i: nat)
    requires Structured(lines) && i < |lines| && Free(lines, i) && !Claims(lines[i])
    ensures Becomes(lines, i, [lines[i]], [lines[i]])
  {
    hide Structured, Out, At;
    PlainLine(lines, i);
    AtOne(lines, i, lines[i]);
    AtOne(Out(lines), i, lines[i]);
  }

  lemma {:induction false} TwoBecomes(lines: seq<Line>, i: nat, w: nat)
    requires Structured(lines) && i + 1 < |lines| && Free(lines, i) && lines[i + 1].Word? && Out(lines)[i + 1] == Word(w)
    ensures Becomes(lines, i, [lines[i], lines[i + 1]], [lines[i], Word(w)])
  {
    hide Structured, Out, At;
    PlainLine(lines, i);
    AtTwo(lines, i, lines[i], lines[i + 1]);
    AtTwo(Out(lines), i, lines[i], Word(w));
  }

  lemma {:induction false} ThreeBecomes(lines: seq<Line>, i: nat, w: nat)
    requires Structured(lines) && i + 2 < |lines| && Free(lines, i) && lines[i + 1].Word? && !Claims(lines[i + 2])
    requires Out(lines)[i + 1] == Word(w)
    ensures Becomes(lines, i, [lines[i], lines[i + 1], lines[i + 2]], [lines[i], Word(w), lines[i + 2]])
  {
    hide Structured, Out, At;
    PlainLine(lines, i);
    PlainLine(lines, i + 2);
    AtThree(lines, i, lines[i], lines[i + 1], lines[i + 2]);
    AtThree(Out(lines), i, lines[i], Word(w), lines[i + 2]);
  }

  /** The counts and links of a program at `pos`. */
  ghost predicate Placed(lines: seq<Line>, code: Code, pos: nat, ic: nat, fn: nat) {
    && At(lines, pos, Emit(code)) && WellFormed(code) && Free(lines, pos)
    && ic == WordCount(lines, pos) && fn == FnCount(lines, pos) + 1
    && Linked(code, pos, ic, Final(lines)) && FnLinked(code, pos, FnEnds(lines))
  }

  ghost predicate PlacedItem(lines: seq<Line>, item: Item, pos: nat, ic: nat, fn: nat) {
    && At(lines, pos, EmitItem(item)) && WellFormedItem(item) && Free(lines, pos)
    && ic == WordCount(lines, pos) && fn == FnCount(lines, pos) + 1
    && LinkedItem(item, pos, ic, Final(lines)) && FnLinkedItem(item, pos, FnEnds(lines))
  }

  ghost predicate PlacedTests(lines: seq<Line>, c: Construct, tests: Tests, pos: nat, ic: nat, fn: nat, target: nat) {
    && At(lines, pos, EmitTests(c, tests)) && WellFormedTests(tests) && Free(lines, pos)
    && ic == WordCount(lines, pos) && fn == FnCount(lines, pos) + 1
    && LinkedPres(c, tests, pos, ic, Final(lines)) && FnLinkedTests(c, tests, pos, FnEnds(lines))
    && TestsGo(TestLines(c, tests, pos), target, Final(lines))
  }

  lemma {:induction false} PlacedParts(lines: seq<Line>, code: Code, pos: nat, ic: nat, fn: nat)
    requires code.Then? && Placed(lines, code, pos, ic, fn)
    ensures PlacedItem(lines, code.head, pos, ic, fn)
    ensures var mid := pos + |EmitItem(code.head)|;
            Free(lines, mid) ==> Placed(lines, code.tail, mid, ic + ItemWords(code.head), fn + ItemFns(code.head))
  {
    hide At, EmitItem, LinkedItem, FnLinkedItem, WellFormedItem, Final, FnEnds, Free;
    CodeLayout(lines, code, pos);
    ItemCounts(lines, code.head, pos);
  }

  lemma {:induction false} CodeOut(lines: seq<Line>, code: Code, pos: nat, ic: nat, fn: nat)
    requires Structured(lines) && Placed(lines, code, pos, ic, fn)
    ensures Becomes(lines, pos, Emit(code), Resolve(code, ic, fn, Pool(lines)))
    decreases code
  {
    hide Structured, EmitItem, ResolveItem, Becomes, PlacedItem, At;
    if code.Empty? {
      NothingBecomes(lines, pos);
    } else {
      PlacedParts(lines, code, pos, ic, fn);
      ItemOut(lines, code.head, pos, ic, fn);
      var mid := pos + |EmitItem(code.head)|;
      BecomesFree(lines, pos, EmitItem(code.head), ResolveItem(code.head, ic, fn, Pool(lines)));
      CodeOut(lines, code.tail, mid, ic + ItemWords(code.head), fn + ItemFns(code.head));
      BecomesJoin(lines, pos, EmitItem(code.head), ResolveItem(code.head, ic, fn, Pool(lines)),
        Emit(code.tail), Resolve(code.tail, ic + ItemWords(code.head), fn + ItemFns(code.head), Pool(lines)));
    }
  }

  lemma {:induction false} BecomesFree(lines: seq<Line>, pos: nat, xs: seq<Line>, ys: seq<Line>)
    requires Becomes(lines, pos, xs, ys)
    ensures Free(lines, pos + |xs|)
  {
  }

  lemma {:induction false} ItemOut(lines: seq<Line>, item: Item, pos: nat, ic: nat, fn: nat)
    requires Structured(lines) && PlacedItem(lines, item, pos, ic, fn)
    ensures Becomes(lines, pos, EmitItem(item), ResolveItem(item, ic, fn, Pool(lines)))
    decreases item, 1
  {
    hide Structured, Becomes, Emit, EmitTests, Resolve, ResolveTests, At, Out, Final, FnEnds, LinkedItem, FnLinkedItem, Pool, IndexIn;
    match item
    case Instr(w) => AtOne(lines, pos, Word(w)); OneBecomes(lines, pos);
    case Note(b) => AtOne(lines, pos, Comment(b)); OneBecomes(lines, pos);
    case Load(v, w) =>
      AtTwo(lines, pos, Mark(Const(v)), Word(w));
      LoadLine(lines, pos);
      TwoBecomes(lines, pos, PatchLoad(w, IndexIn(Pool(lines), v)));
    case Branch(_, _, _, _, _) => BranchOut(lines, item, pos, ic, fn);
    case OrElse(_, _, _, _, _) => OrOut(lines, item, pos, ic, fn);
    case Fn(_, _, _) => FnOut(lines, item, pos, ic, fn);
  }

  lemma {:induction false} PlacedTestParts(lines: seq<Line>, c: Construct, tests: Tests, pos: nat, ic: nat, fn: nat, target: nat)
    requires tests.TestAt? && PlacedTests(lines, c, tests, pos, ic, fn, target)
    ensures Placed(lines, tests.pre, pos, ic, fn)
    ensures var at, next := TestPos(tests, pos), ic + Words(tests.pre);
            && at + 1 < |lines| && lines[at] == Mark(Test(c)) && lines[at + 1] == Word(tests.w)
            && WordCount(lines, at + 1) == next && Lookup(Final(lines).jmpfs, at + 1) == Some(Some(target))
            && PlacedTests(lines, c, tests.rest, at + 2, next + 1, fn + Fns(tests.pre), target)
  {
    hide At, Emit, Linked, FnLinked, Final, FnEnds, WellFormed;
    TestLayout(lines, c, tests, pos);
    CodeWords(lines, tests.pre, pos);
    var at := TestPos(tests, pos);
    assert at + 1 in TestLines(c, tests, pos);
    assert WordCount(lines, at + 1) == WordCount(lines, at) && WordCount(lines, at + 2) == WordCount(lines, at) + 1;
    assert FnCount(lines, at + 1) == FnCount(lines, at) && FnCount(lines, at + 2) == FnCount(lines, at);
  }

  lemma {:induction false} TestsOut(lines: seq<Line>, c: Construct, tests: Tests, pos: nat, ic: nat, fn: nat, target: nat)
    requires Structured(lines) && PlacedTests(lines, c, tests, pos, ic, fn, target)
    ensures Becomes(lines, pos, EmitTests(c, tests), ResolveTests(c, tests, ic, fn, target, Pool(lines)))
    decreases tests
  {
    hide Structured, Becomes, Emit, Resolve, At, Out, Final, Pool, Placed;
    if tests.NoTests? {
      NothingBecomes(lines, pos);
    } else {
      hide PlacedTests;
      PlacedTestParts(lines, c, tests, pos, ic, fn, target);
      var at, next := TestPos(tests, pos), ic + Words(tests.pre);
      CodeOut(lines, tests.pre, pos, ic, fn);
      var p1, q1 := Emit(tests.pre), Resolve(tests.pre, ic, fn, Pool(lines));
      BecomesFree(lines, pos, p1, q1);
      TestLine(lines, at, target);
      var p2, q2 := [Mark(Test(c)), Word(tests.w)], [Mark(Test(c)), Word(PatchJmpF(tests.w, target - next))];
      TwoBecomes(lines, at, PatchJmpF(tests.w, target - next));
      BecomesJoin(lines, pos, p1, q1, p2, q2);
      TestsOut(lines, c, tests.rest, at + 2, next + 1, fn + Fns(tests.pre), target);
      BecomesJoin(lines, pos, p1 + p2, q1 + q2, EmitTests(c, tests.rest),
        ResolveTests(c, tests.rest, next + 1, fn + Fns(tests.pre), target, Pool(lines)));
    }
  }

  lemma {:induction false} PlacedBranch(lines: seq<Line>, item: Item, pos: nat, ic: nat, fn: nat)
    requires item.Branch? && PlacedItem(lines, item, pos, ic, fn)
    ensures var skip, at := SkipPos(item, pos), ic + TestWords(item.tests) + Words(item.body);
            var fnBody := fn + TestFns(item.tests);
            && BranchAt(lines, item, pos)
            && PlacedTests(lines, item.c, item.tests, pos + 1, ic, fn, at + 1)
            && (Free(lines, BodyPos(item, pos)) ==> Placed(lines, item.body, BodyPos(item, pos), ic + TestWords(item.tests), fnBody))
            && WordCount(lines, skip + 1) == at && Lookup(Final(lines).jmps, skip + 1) == Some(Some(at + 1 + Words(item.other)))
            && Placed(lines, item.other, skip + 3, at + 1, fnBody + Fns(item.body))
  {
    hide At, Emit, EmitTests, EmitItem, Linked, LinkedPres, FnLinked, FnLinkedTests, TestsGo, TestLines, Final, FnEnds, WellFormed,
      WellFormedTests, WordCount, FnCount;
    BranchCounts(lines, item, pos);
  }

  lemma {:induction false} BranchOut(lines: seq<Line>, item: Item, pos: nat, ic: nat, fn: nat)
    requires item.Branch? && Structured(lines) && PlacedItem(lines, item, pos, ic, fn)
    ensures Becomes(lines, pos, EmitItem(item), ResolveItem(item, ic, fn, Pool(lines)))
    decreases item, 0
  {
    hide Structured, Becomes, Emit, EmitTests, Resolve, ResolveTests, At, Out, Final, Pool, Placed, PlacedTests, WordCount, FnCount,
      LinkedItem, FnLinkedItem, FnEnds;
    PlacedBranch(lines, item, pos, ic, fn);
    var Branch(c, tests, body, jmp, other) := item;
    var pool, bodyPos, skip, close := Pool(lines), BodyPos(item, pos), SkipPos(item, pos), ClosePos(item, pos);
    var at, fnBody := ic + TestWords(tests) + Words(body), fn + TestFns(tests);
    var p1, q1 := [Mark(Open(c))], [Mark(Open(c))];
    OneBecomes(lines, pos);
    var p2, q2 := EmitTests(c, tests), ResolveTests(c, tests, ic, fn, at + 1, pool);
    TestsOut(lines, c, tests, pos + 1, ic, fn, at + 1);
    BecomesFree(lines, pos + 1, p2, q2);
    BecomesJoin(lines, pos, p1, q1, p2, q2);
    var p3, q3 := Emit(body), Resolve(body, ic + TestWords(tests), fnBody, pool);
    CodeOut(lines, body, bodyPos, ic + TestWords(tests), fnBody);
    BecomesFree(lines, bodyPos, p3, q3);
    BecomesJoin(lines, pos, p1 + p2, q1 + q2, p3, q3);
    var p4 := [Mark(Skip(c)), Word(jmp), Mark(Mid(c))];
    var q4 := [Mark(Skip(c)), Word(PatchJmp(at + 1 + Words(other) - at)), Mark(Mid(c))];
    JumpLine(lines, skip, at + 1 + Words(other));
    ThreeBecomes(lines, skip, PatchJmp(at + 1 + Words(other) - at));
    BecomesJoin(lines, pos, p1 + p2 + p3, q1 + q2 + q3, p4, q4);
    var p5, q5 := Emit(other), Resolve(other, at + 1, fnBody + Fns(body), pool);
    CodeOut(lines, other, skip + 3, at + 1, fnBody + Fns(body));
    BecomesFree(lines, skip + 3, p5, q5);
    BecomesJoin(lines, pos, p1 + p2 + p3 + p4, q1 + q2 + q3 + q4, p5, q5);
    OneBecomes(lines, close);
    BecomesJoin(lines, pos, p1 + p2 + p3 + p4 + p5, q1 + q2 + q3 + q4 + q5, [Mark(Close(c))], [Mark(Close(c))]);
  }

  lemma {:induction false} PlacedOr(lines: seq<Line>, item: Item, pos: nat, ic: nat, fn: nat)
    requires item.OrElse? && PlacedItem(lines, item, pos, ic, fn)
    ensures var skip, cont, at := FillJmpPos(item, pos), ContJmpPos(item, pos), ic + TestWords(item.tests);
            var doneAt, fnRhs := at + 1 + Words(item.rhs), fn + TestFns(item.tests);
            && OrAt(lines, item, pos)
            && PlacedTests(lines, OrC, item.tests, pos + 1, ic, fn, at + 1)
            && WordCount(lines, skip + 1) == at && Lookup(Final(lines).jmps, skip + 1) == Some(Some(doneAt + 1))
            && Placed(lines, item.rhs, skip + 3, at + 1, fnRhs)
            && WordCount(lines, cont + 1) == doneAt && Lookup(Final(lines).jmps, cont + 1) == Some(Some(doneAt + 1 + Words(item.fill)))
            && Placed(lines, item.fill, cont + 3, doneAt + 1, fnRhs + Fns(item.rhs))
  {
    hide At, Emit, EmitTests, EmitItem, Linked, LinkedPres, FnLinked, FnLinkedTests, TestsGo, TestLines, Final, FnEnds, WellFormed,
      WellFormedTests, WordCount, FnCount;
    OrCounts(lines, item, pos);
  }

  lemma {:induction false} OrOut(lines: seq<Line>, item: Item, pos: nat, ic: nat, fn: nat)
    requires item.OrElse? && Structured(lines) && PlacedItem(lines, item, pos, ic, fn)
    ensures Becomes(lines, pos, EmitItem(item), ResolveItem(item, ic, fn, Pool(lines)))
    decreases item, 0
  {
    hide Structured, Becomes, Emit, EmitTests, Resolve, ResolveTests, At, Out, Final, Pool, Placed, PlacedTests, WordCount, FnCount,
      LinkedItem, FnLinkedItem, FnEnds;
    PlacedOr(lines, item, pos, ic, fn);
    var OrElse(tests, skipW, rhs, doneW, fill) := item;
    var pool, skip, cont, close := Pool(lines), FillJmpPos(item, pos), ContJmpPos(item, pos), OrClosePos(item, pos);
    var at, fnRhs := ic + TestWords(tests), fn + TestFns(tests);
    var doneAt := at + 1 + Words(rhs);
    var p1, q1 := [Mark(Open(OrC))], [Mark(Open(OrC))];
    OneBecomes(lines, pos);
    var p2, q2 := EmitTests(OrC, tests), ResolveTests(OrC, tests, ic, fn, at + 1, pool);
    TestsOut(lines, OrC, tests, pos + 1, ic, fn, at + 1);
    BecomesFree(lines, pos + 1, p2, q2);
    BecomesJoin(lines, pos, p1, q1, p2, q2);
    var p3 := [Mark(OrFillJmp), Word(skipW), Mark(Mid(OrC))];
    var q3 := [Mark(OrFillJmp), Word(PatchJmp(doneAt + 1 - at)), Mark(Mid(OrC))];
    JumpLine(lines, skip, doneAt + 1);
    ThreeBecomes(lines, skip, PatchJmp(doneAt + 1 - at));
    BecomesJoin(lines, pos, p1 + p2, q1 + q2, p3, q3);
    var p4, q4 := Emit(rhs), Resolve(rhs, at + 1, fnRhs, pool);
    CodeOut(lines, rhs, skip + 3, at + 1, fnRhs);
    BecomesFree(lines, skip + 3, p4, q4);
    BecomesJoin(lines, pos, p1 + p2 + p3, q1 + q2 + q3, p4, q4);
    var p5 := [Mark(OrContJmp), Word(doneW), Mark(OrFill)];
    var q5 := [Mark(OrContJmp), Word(PatchJmp(doneAt + 1 + Words(fill) - doneAt)), Mark(OrFill)];
    JumpLine(lines, cont, doneAt + 1 + Words(fill));
    ThreeBecomes(lines, cont, PatchJmp(doneAt + 1 + Words(fill) - doneAt));
    BecomesJoin(lines, pos, p1 + p2 + p3 + p4, q1 + q2 + q3 + q4, p5, q5);
    var p6, q6 := Emit(fill), Resolve(fill, doneAt + 1, fnRhs + Fns(rhs), pool);
    CodeOut(lines, fill, cont + 3, doneAt + 1, fnRhs + Fns(rhs));
    BecomesFree(lines, cont + 3, p6, q6);
    BecomesJoin(lines, pos, p1 + p2 + p3 + p4 + p5, q1 + q2 + q3 + q4 + q5, p6, q6);
    OneBecomes(lines, close);
    BecomesJoin(lines, pos, p1 + p2 + p3 + p4 + p5 + p6, q1 + q2 + q3 + q4 + q5 + q6, [Mark(Close(OrC))], [Mark(Close(OrC))]);
  }

  lemma {:induction false} PlacedFn(lines: seq<Line>, item: Item, pos: nat, ic: nat, fn: nat)
    requires item.Fn? && PlacedItem(lines, item, pos, ic, fn)
    ensures var end := EndPos(item, pos);
            && FnAt(lines, item, pos) && Placed(lines, item.body, pos + 3, ic + 1, fn + 1)
            && WordCount(lines, pos + 1) == ic && WordCount(lines, end + 1) == ic + 1 + Words(item.body)
            && FnCount(lines, pos + 2) + 1 == fn && Opcode(item.closure) == OP_CLOSURE
            && pos + 2 in FnEnds(lines) && FnEnds(lines)[pos + 2] == end
  {
    hide At, Emit, EmitItem, Linked, FnLinked, Final, FnEnds, WellFormed, WordCount, FnCount, Opcode;
    FnCounts(lines, item, pos);
  }

  lemma {:induction false} FnOut(lines: seq<Line>, item: Item, pos: nat, ic: nat, fn: nat)
    requires item.Fn? && Structured(lines) && PlacedItem(lines, item, pos, ic, fn)
    ensures Becomes(lines, pos, EmitItem(item), ResolveItem(item, ic, fn, Pool(lines)))
    decreases item, 0
  {
    hide Structured, Becomes, Emit, Resolve, At, Out, Final, Pool, Placed, WordCount, FnCount, LinkedItem, FnLinkedItem, FnEnds, Opcode;
    PlacedFn(lines, item, pos, ic, fn);
    var Fn(skipW, body, closure) := item;
    var pool, end := Pool(lines), EndPos(item, pos);
    var p1 := [Mark(FnSkip), Word(skipW), Mark(FnStart)];
    var q1 := [Mark(FnSkip), Word(PatchJmp(ic + 1 + Words(body) - ic)), Mark(FnStart)];
    SkipLine(lines, pos);
    ThreeBecomes(lines, pos, PatchJmp(ic + 1 + Words(body) - ic));
    var p2, q2 := Emit(body), Resolve(body, ic + 1, fn + 1, pool);
    CodeOut(lines, body, pos + 3, ic + 1, fn + 1);
    BecomesFree(lines, pos + 3, p2, q2);
    BecomesJoin(lines, pos, p1, q1, p2, q2);
    var p3, q3 := [Mark(FnEnd), Word(closure)], [Mark(FnEnd), Word(PatchClosure(closure, fn))];
    ClosureLine(lines, pos + 2);
    TwoBecomes(lines, end, PatchClosure(closure, fn));
    BecomesJoin(lines, pos, p1 + p2, q1 + q2, p3, q3);
  }
}
