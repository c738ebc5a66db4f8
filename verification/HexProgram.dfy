/** Whole programs: what the back-patched stream of a structured program is,
    what the loader makes of it, and what running it does
    (bootstrap/fixup_hex.py, bootstrap/hex2nbc.py, src/bytecode.rs, src/vm.rs). */
module HexProgram {
  import opened Options
  import opened Bytecode
  import opened HexFixup
  import opened HexTree
  import opened HexScan
  import opened HexBranches
  import opened HexFunctions
  import opened HexRefinement

  // ----- constants are followed by their loads -----

  predicate LoadsOk(xs: seq<Line>) {
    forall i :: 0 <= i < |xs| && xs[i].Mark? && xs[i].m.Const? ==>
      i + 1 < |xs| && xs[i + 1].Word? && (Opcode(xs[i + 1].w) == OP_CONSTU || Opcode(xs[i + 1].w) == OP_PERFORM)
  }

  lemma {:induction false} LoadsJoin(xs: seq<Line>, ys: seq<Line>)
    requires LoadsOk(xs) && LoadsOk(ys)
    ensures LoadsOk(xs + ys)
  {
    hide Opcode;
    var zs := xs + ys;
    forall i | 0 <= i < |zs| && zs[i].Mark? && zs[i].m.Const?
      ensures i + 1 < |zs| && zs[i + 1].Word? && (Opcode(zs[i + 1].w) == OP_CONSTU || Opcode(zs[i + 1].w) == OP_PERFORM)
    {
      if i < |xs| {
        assert xs[i] == zs[i] && xs[i + 1] == zs[i + 1];
      } else {
        assert ys[i - |xs|] == zs[i];
      }
    }
  }

  predicate NoConst(line: Line) { !(line.Mark? && line.m.Const?) }

  lemma {:induction false} LoadsShort()
    ensures LoadsOk([])
    ensures forall a: Line :: NoConst(a) ==> LoadsOk([a])
    ensures forall a: Line, b: Line :: NoConst(a) && NoConst(b) ==> LoadsOk([a, b])
    ensures forall a: Line, b: Line, c: Line :: NoConst(a) && NoConst(b) && NoConst(c) ==> LoadsOk([a, b, c])
  {
  }

  lemma {:induction false} EmitLoads(code: Code)
    requires WellFormed(code)
    ensures LoadsOk(Emit(code))
    decreases code
  {
    hide EmitItem, LoadsOk, WellFormedItem;
    LoadsShort();
    if code.Then? {
      EmitItemLoads(code.head);
      EmitLoads(code.tail);
      LoadsJoin(EmitItem(code.head), Emit(code.tail));
    }
  }

  lemma {:induction false} EmitTestsLoads(c: Construct, tests: Tests)
    requires WellFormedTests(tests)
    ensures LoadsOk(EmitTests(c, tests))
    decreases tests
  {
    hide Emit, LoadsOk, WellFormed;
    LoadsShort();
    if tests.TestAt? {
      EmitLoads(tests.pre);
      EmitTestsLoads(c, tests.rest);
      LoadsJoin(Emit(tests.pre), [Mark(Test(c)), Word(tests.w)]);
      LoadsJoin(Emit(tests.pre) + [Mark(Test(c)), Word(tests.w)], EmitTests(c, tests.rest));
    }
  }

  lemma {:induction false} EmitItemLoads(item: Item)
    requires WellFormedItem(item)
    ensures LoadsOk(EmitItem(item))
    decreases item
  {
    hide Emit, EmitTests, WellFormed, WellFormedTests, Opcode;
    match item
    case Branch(c, tests, body, jmp, other) =>
      hide LoadsOk;
      LoadsShort();
      EmitTestsLoads(c, tests);
      EmitLoads(body);
      EmitLoads(other);
      var a := [Mark(Open(c))] + EmitTests(c, tests);
      var mid := [Mark(Skip(c)), Word(jmp), Mark(Mid(c))];
      LoadsJoin([Mark(Open(c))], EmitTests(c, tests));
      LoadsJoin(a, Emit(body));
      LoadsJoin(a + Emit(body), mid);
      LoadsJoin(a + Emit(body) + mid, Emit(other));
      LoadsJoin(a + Emit(body) + mid + Emit(other), [Mark(Close(c))]);
    case OrElse(tests, skip, rhs, done, fill) =>
      hide LoadsOk;
      LoadsShort();
      EmitTestsLoads(OrC, tests);
      EmitLoads(rhs);
      EmitLoads(fill);
      var a := [Mark(Open(OrC))] + EmitTests(OrC, tests);
      var m1 := [Mark(OrFillJmp), Word(skip), Mark(Mid(OrC))];
      var m2 := [Mark(OrContJmp), Word(done), Mark(OrFill)];
      LoadsJoin([Mark(Open(OrC))], EmitTests(OrC, tests));
      LoadsJoin(a, m1);
      LoadsJoin(a + m1, Emit(rhs));
      LoadsJoin(a + m1 + Emit(rhs), m2);
      LoadsJoin(a + m1 + Emit(rhs) + m2, Emit(fill));
      LoadsJoin(a + m1 + Emit(rhs) + m2 + Emit(fill), [Mark(Close(OrC))]);
    case Fn(skip, body, closure) =>
      hide LoadsOk;
      LoadsShort();
      EmitLoads(body);
      var a := [Mark(FnSkip), Word(skip), Mark(FnStart)];
      LoadsJoin(a, Emit(body));
      LoadsJoin(a + Emit(body), [Mark(FnEnd), Word(closure)]);
    case Instr(w) =>
    case Note(b) =>
    case Load(v, w) =>
  }

  // ----- back-patching a whole program -----

  /** What follows a program: comments and at least one instruction, here the
      move of the result and the halt. */
  predicate Epilogue(tail: seq<Line>) {
    (forall i :: 0 <= i < |tail| ==> !tail[i].Mark?) && NextWord(tail, 0).Some?
  }

  function Stream(code: Code, tail: seq<Line>): seq<Line> { Emit(code) + tail }

  lemma {:induction false} WordInTail(code: Code, tail: seq<Line>, i: nat)
    requires i <= |tail| && NextWord(tail, i).Some?
    ensures NextWord(Stream(code, tail), |Emit(code)| + i).Some?
    decreases |tail| - i
  {
    hide Emit;
    var lines := Stream(code, tail);
    if i < |tail| {
      assert lines[|Emit(code)| + i] == tail[i];
      if !tail[i].Word? { WordInTail(code, tail, i + 1); }
    }
  }

  lemma {:induction false} StreamScans(code: Code, tail: seq<Line>)
    requires WellFormed(code) && Epilogue(tail)
    ensures var lines := Stream(code, tail);
            && At(lines, 0, Emit(code))
            && Linked(code, 0, 0, Final(lines)) && FnLinked(code, 0, FnEnds(lines))
            && forall l :: l in Final(lines).jmps ==> BranchJump(lines, l)
  {
    hide Emit, Linked, FnLinked, WellFormed, BranchJump;
    var lines, n := Stream(code, tail), |Emit(code)|;
    assert lines[0..n] == Emit(code);
    WordInTail(code, tail, 0);
    ScanCode(lines, code, 0, START);
    var st := ScanRange(lines, 0, n, START);
    assert forall k :: n <= k < |lines| ==> lines[k] == tail[k - n];
    ScanInert(lines, n, |lines|, st);
    ScanJoin(lines, 0, n, |lines|, START);
    forall l | l in st.jmps
      ensures BranchJump(lines, l)
    {
      assert Lookup(START.jmps, l) == None;
    }
    FnScanCode(lines, code, 0, FnScan([], map[]));
    FnScanQuiet(lines, n, |lines|, FnScanRange(lines, 0, n, FnScan([], map[])));
    FnScanJoin(lines, 0, n, |lines|, FnScan([], map[]));
  }

  lemma {:induction false} StreamStructured(code: Code, tail: seq<Line>)
    requires WellFormed(code) && Epilogue(tail)
    ensures Structured(Stream(code, tail))
  {
    hide Emit, Final, BranchJump, Opcode;
    var lines := Stream(code, tail);
    StreamScans(code, tail);
    EmitTight(code);
    TightJoin(Emit(code), tail);
    EmitLoads(code);
    LoadsJoin(Emit(code), tail);
    forall i | 0 <= i < |lines|
      ensures ConstOk(lines, i)
    {
      if lines[i].Mark? && lines[i].m.Const? { assert NextWord(lines, i + 1) == Some(i + 1); }
    }
  }

  /** Back-patching the stream of a structured program yields the stream that
      structural recursion resolves, and never trips the constant assertion. */
  lemma {:induction false} FixupResolves(code: Code, tail: seq<Line>)
    requires WellFormed(code) && Epilogue(tail)
    ensures var lines := Stream(code, tail);
            && (forall i :: 0 <= i < |lines| ==> ConstOk(lines, i))
            && Output(lines, AllPatches(lines)) == Resolve(code, 0, 1, Pool(lines)) + tail
  {
    hide Emit, Resolve, Linked, FnLinked, WellFormed, Final, FnEnds, AllPatches, ConstOk, Pool;
    var lines, n := Stream(code, tail), |Emit(code)|;
    StreamScans(code, tail);
    StreamStructured(code, tail);
    CodeOut(lines, code, 0, 0, 1);
    var out := Out(lines);
    forall i | n <= i < |lines|
      ensures out[i] == tail[i - n]
    {
      assert i > n ==> lines[i - 1] == tail[i - 1 - n];
      PlainLine(lines, i);
    }
    assert out[0..n] == Resolve(code, 0, 1, Pool(lines));
    assert out == out[0..n] + out[n..] && out[n..] == tail;
  }

  // ----- why an instruction must follow -----

  predicate Unmarked(tail: seq<Line>) { forall i :: 0 <= i < |tail| ==> !tail[i].Mark? }

  /** An empty conditional: a jump to the instruction after its end. */
  const DANGLING := Then(Branch(IfC, NoTests, Empty, 0, Empty), Empty)

  lemma {:induction false} NoWord(lines: seq<Line>, i: nat)
    requires forall k :: i <= k < |lines| ==> !lines[k].Word?
    ensures NextWord(lines, i).None?
    decreases |lines| - i
  {
    if i < |lines| { NoWord(lines, i + 1); }
  }

  lemma {:induction false} WordlessTail(tail: seq<Line>, i: nat)
    requires NextWord(tail, i).None?
    ensures forall k :: i <= k < |tail| ==> !tail[k].Word?
    decreases |tail| - i
  {
    if i < |tail| { WordlessTail(tail, i + 1); }
  }

  lemma {:induction false} DanglingLines(tail: seq<Line>)
    ensures Stream(DANGLING, tail) ==
            [Mark(Open(IfC)), Mark(Skip(IfC)), Word(0), Mark(Mid(IfC)), Mark(Close(IfC))] + tail
    ensures WellFormed(DANGLING)
  {
    assert EmitItem(DANGLING.head) == [Mark(Open(IfC)), Mark(Skip(IfC)), Word(0), Mark(Mid(IfC)), Mark(Close(IfC))];
    assert Emit(DANGLING) == EmitItem(DANGLING.head);
  }

  lemma {:induction false} DanglingScan(tail: seq<Line>)
    requires Unmarked(tail) && NextWord(tail, 0).None?
    ensures Final(Stream(DANGLING, tail)).jmps == map[2 := None]
  {
    hide ScanRange, Framed, InstrAfter;
    var lines := Stream(DANGLING, tail);
    DanglingLines(tail);
    var s1 := START.WithStack(IfC, START.Stack(IfC) + [EMPTY_FRAME]);
    OpenStep(lines, IfC, 0, START);
    FramedOpen(START, IfC);
    MidStep(lines, IfC, 1, s1, START, EMPTY_FRAME);
    var s4 := ScanRange(lines, 1, 4, s1);
    CloseStep(lines, IfC, 4, s4, START, EMPTY_FRAME.(jmp := Some(2)));
    var s5 := ScanRange(lines, 4, 5, s4);
    assert forall k :: 5 <= k < |lines| ==> lines[k] == tail[k - 5];
    WordlessTail(tail, 0);
    NoWord(lines, 5);
    assert InstrAfter(lines, 4) == None by { NothingAfter(lines, 4); }
    ScanInert(lines, 5, |lines|, s5);
    ScanJoin(lines, 0, 1, 4, START);
    ScanJoin(lines, 0, 4, 5, START);
    ScanJoin(lines, 0, 5, |lines|, START);
  }

  lemma {:induction false} NothingAfter(lines: seq<Line>, i: nat)
    requires NextWord(lines, i + 1).None?
    ensures InstrAfter(lines, i) == None
  {
  }

  lemma {:induction false} DanglingUnpatched(tail: seq<Line>)
    requires Unmarked(tail) && NextWord(tail, 0).None?
    ensures var lines := Stream(DANGLING, tail);
            |lines| > 2 && Output(lines, AllPatches(lines))[2] == Word(0)
            && |Resolve(DANGLING, 0, 1, Pool(lines)) + tail| > 2
            && (Resolve(DANGLING, 0, 1, Pool(lines)) + tail)[2] == Word(PatchJmp(1))
  {
    hide AllPatches, Final, Pool, FnEnds;
    var lines, pool := Stream(DANGLING, tail), Pool(Stream(DANGLING, tail));
    DanglingLines(tail);
    DanglingScan(tail);
    assert forall k :: 5 <= k < |lines| ==> lines[k] == tail[k - 5];
    assert Structured(lines) by {
      assert forall i :: 0 <= i < |lines| && Claims(lines[i]) ==> i == 1;
      assert forall i :: 0 <= i < |lines| ==> ConstOk(lines, i);
      assert BranchJump(lines, 2);
    }
    PatchAt(lines, 2);
    assert ResolveItem(DANGLING.head, 0, 1, pool) ==
           [Mark(Open(IfC)), Mark(Skip(IfC)), Word(PatchJmp(1)), Mark(Mid(IfC)), Mark(Close(IfC))];
  }

  /** Resolution of every program needs, and needs only, an instruction after
      the program: with none, a jump to the end keeps its placeholder. */
  lemma {:induction false} ResolvesIffFollowed(tail: seq<Line>)
    requires Unmarked(tail)
    ensures (forall code {:trigger Stream(code, tail)} :: WellFormed(code) ==>
               Output(Stream(code, tail), AllPatches(Stream(code, tail))) ==
               Resolve(code, 0, 1, Pool(Stream(code, tail))) + tail)
            <==> NextWord(tail, 0).Some?
  {
    hide AllPatches, Pool, Resolve;
    if NextWord(tail, 0).Some? {
      forall code | WellFormed(code)
        ensures Output(Stream(code, tail), AllPatches(Stream(code, tail))) ==
                Resolve(code, 0, 1, Pool(Stream(code, tail))) + tail
      {
        FixupResolves(code, tail);
      }
    } else {
      DanglingLines(tail);
      DanglingUnpatched(tail);
    }
  }
}
