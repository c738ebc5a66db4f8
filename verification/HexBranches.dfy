/** The branch scan refines structural recursion: on a well-nested stream the
    three stacks are back where they started, and every jump of the program
    has the target its construct dictates. */
module HexBranches {
  import opened Options
  import opened Bytecode
  import opened HexFixup
  import opened HexTree
  import opened HexScan

  // ----- the scan, step by step -----

  lemma {:induction false} ScanJoin(lines: seq<Line>, i: nat, j: nat, k: nat, st: Scan)
    requires i <= j <= k <= |lines|
    ensures ScanRange(lines, i, k, st) == ScanRange(lines, j, k, ScanRange(lines, i, j, st))
    decreases k - j
  {
    hide ScanLine;
    if j < k { ScanJoin(lines, i, j, k - 1, st); }
  }

  lemma {:induction false} ScanStep(lines: seq<Line>, i: nat, st: Scan)
    requires i < |lines|
    ensures ScanRange(lines, i, i + 1, st) == ScanLine(lines, i, st)
  {
    hide ScanLine;
    assert ScanRange(lines, i, i, st) == st;
  }

  lemma {:induction false} WordAhead(lines: seq<Line>, i: nat, j: nat)
    requires i <= j && NextWord(lines, j).Some?
    ensures NextWord(lines, i).Some?
    decreases j - i
  {
    if i < j { WordAhead(lines, i + 1, j); }
  }

  lemma {:induction false} InstrAfterIs(lines: seq<Line>, i: nat)
    requires i < |lines| && NextWord(lines, i + 1).Some?
    ensures InstrAfter(lines, i) == Some(WordCount(lines, i + 1))
    decreases |lines| - i
  {
    if !lines[i + 1].Word? {
      InstrAfterIs(lines, i + 1);
      assert WordCount(lines, i + 2) == WordCount(lines, i + 1);
    }
  }

  // ----- what a correct scan leaves behind -----

  function Lookup(t: Targets, l: nat): Option<Option<nat>> { if l in t then Some(t[l]) else None }

  predicate BranchJump(lines: seq<Line>, l: nat) {
    0 < l <= |lines| && lines[l - 1].Mark? &&
    (lines[l - 1].m.Skip? || lines[l - 1].m.OrFillJmp? || lines[l - 1].m.OrContJmp?)
  }

  predicate SameStacks(a: Scan, b: Scan) { a.ifs == b.ifs && a.ands == b.ands && a.ors == b.ors }

  /** Only lines in the range changed targets, and only branch jumps did. */
  ghost predicate Untouched(lines: seq<Line>, lo: nat, hi: nat, a: Scan, b: Scan) {
    && (forall l: nat :: !(lo <= l < hi) ==> Lookup(b.jmpfs, l) == Lookup(a.jmpfs, l))
    && (forall l: nat :: !(lo <= l < hi && BranchJump(lines, l)) ==> Lookup(b.jmps, l) == Lookup(a.jmps, l))
  }

  lemma {:induction false} UntouchedJoin(lines: seq<Line>, lo: nat, hi: nat, lo1: nat, hi1: nat, lo2: nat, hi2: nat, a: Scan, b: Scan, c: Scan)
    requires Untouched(lines, lo1, hi1, a, b) && Untouched(lines, lo2, hi2, b, c)
    requires lo <= lo1 && hi1 <= hi && lo <= lo2 && hi2 <= hi
    ensures Untouched(lines, lo, hi, a, c)
  {
    hide BranchJump;
    forall l: nat | !(lo <= l < hi)
      ensures Lookup(c.jmpfs, l) == Lookup(a.jmpfs, l)
    {
      assert Lookup(b.jmpfs, l) == Lookup(a.jmpfs, l);
    }
    forall l: nat | !(lo <= l < hi && BranchJump(lines, l))
      ensures Lookup(c.jmps, l) == Lookup(a.jmps, l)
    {
      assert Lookup(b.jmps, l) == Lookup(a.jmps, l);
    }
  }

  /** Every jump of the program has the target its place in the tree says. */
  predicate Linked(code: Code, pos: nat, ic: nat, st: Scan)
    decreases code
  {
    code.Then? ==>
      && LinkedItem(code.head, pos, ic, st)
      && Linked(code.tail, pos + |EmitItem(code.head)|, ic + ItemWords(code.head), st)
  }

  predicate LinkedPres(c: Construct, tests: Tests, pos: nat, ic: nat, st: Scan)
    decreases tests
  {
    tests.TestAt? ==>
      && Linked(tests.pre, pos, ic, st)
      && LinkedPres(c, tests.rest, TestPos(tests, pos) + 2, ic + Words(tests.pre) + 1, st)
  }

  function TestLines(c: Construct, tests: Tests, pos: nat): seq<nat>
    decreases tests
  {
    if tests.NoTests? then []
    else [TestPos(tests, pos) + 1] + TestLines(c, tests.rest, TestPos(tests, pos) + 2)
  }

  predicate TestsGo(ls: seq<nat>, target: nat, st: Scan) {
    forall l :: l in ls ==> Lookup(st.jmpfs, l) == Some(Some(target))
  }

  predicate LinkedItem(item: Item, pos: nat, ic: nat, st: Scan)
    decreases item
  {
    match item
    case Branch(c, tests, body, _, other) =>
      var at := ic + TestWords(tests) + Words(body);
      && LinkedPres(c, tests, pos + 1, ic, st)
      && TestsGo(TestLines(c, tests, pos + 1), at + 1, st)
      && Linked(body, BodyPos(item, pos), ic + TestWords(tests), st)
      && Lookup(st.jmps, SkipPos(item, pos) + 1) == Some(Some(at + 1 + Words(other)))
      && Linked(other, SkipPos(item, pos) + 3, at + 1, st)
    case OrElse(tests, _, rhs, _, fill) =>
      var at := ic + TestWords(tests);
      var doneAt := at + 1 + Words(rhs);
      && LinkedPres(OrC, tests, pos + 1, ic, st)
      && TestsGo(TestLines(OrC, tests, pos + 1), at + 1, st)
      && Lookup(st.jmps, FillJmpPos(item, pos) + 1) == Some(Some(doneAt + 1))
      && Linked(rhs, FillJmpPos(item, pos) + 3, at + 1, st)
      && Lookup(st.jmps, ContJmpPos(item, pos) + 1) == Some(Some(doneAt + 1 + Words(fill)))
      && Linked(fill, ContJmpPos(item, pos) + 3, doneAt + 1, st)
    case Fn(_, body, _) => Linked(body, pos + 3, ic + 1, st)
    case _ => true
  }

  // ----- links survive later steps -----

  /** The two scans agree on the targets of the lines in the range. */
  ghost predicate AgreeOn(lo: nat, hi: nat, a: Scan, b: Scan) {
    forall l: nat :: lo <= l < hi ==> Lookup(b.jmpfs, l) == Lookup(a.jmpfs, l) && Lookup(b.jmps, l) == Lookup(a.jmps, l)
  }

  lemma {:induction false} LinkedKept(code: Code, pos: nat, ic: nat, a: Scan, b: Scan)
    requires Linked(code, pos, ic, a) && AgreeOn(pos, pos + |Emit(code)|, a, b)
    ensures Linked(code, pos, ic, b)
    decreases code
  {
    hide EmitItem, LinkedItem;
    if code.Then? {
      LinkedItemKept(code.head, pos, ic, a, b);
      LinkedKept(code.tail, pos + |EmitItem(code.head)|, ic + ItemWords(code.head), a, b);
    }
  }

  /** Agreement on the lines of the tests other than their jumps. */
  ghost predicate AgreeOffTests(c: Construct, tests: Tests, pos: nat, a: Scan, b: Scan) {
    forall l: nat :: pos <= l < pos + |EmitTests(c, tests)| && l !in TestLines(c, tests, pos) ==>
      Lookup(b.jmpfs, l) == Lookup(a.jmpfs, l) && Lookup(b.jmps, l) == Lookup(a.jmps, l)
  }

  lemma {:induction false} TestLinesIn(c: Construct, tests: Tests, pos: nat, l: nat)
    requires l in TestLines(c, tests, pos)
    ensures tests.TestAt? && TestPos(tests, pos) < l < pos + |EmitTests(c, tests)|
    decreases tests
  {
    hide Emit;
    if tests.TestAt? {
      TestLayout([], c, tests, pos);
      if l != TestPos(tests, pos) + 1 { TestLinesIn(c, tests.rest, TestPos(tests, pos) + 2, l); }
    }
  }

  lemma {:induction false} AgreeParts(c: Construct, tests: Tests, pos: nat, a: Scan, b: Scan)
    requires tests.TestAt? && AgreeOffTests(c, tests, pos, a, b)
    ensures AgreeOn(pos, TestPos(tests, pos), a, b)
    ensures AgreeOffTests(c, tests.rest, TestPos(tests, pos) + 2, a, b)
  {
    hide Emit, EmitTests, Lookup;
    TestLayout([], c, tests, pos);
    var at := TestPos(tests, pos);
    forall l: nat | pos <= l < at
      ensures l !in TestLines(c, tests, pos)
    {
      if l in TestLines(c, tests, pos) { TestLinesIn(c, tests, pos, l); }
    }
    assert TestLines(c, tests, pos) == [at + 1] + TestLines(c, tests.rest, at + 2);
  }

  lemma {:induction false} LinkedPresKept(c: Construct, tests: Tests, pos: nat, ic: nat, a: Scan, b: Scan)
    requires LinkedPres(c, tests, pos, ic, a) && AgreeOffTests(c, tests, pos, a, b)
    ensures LinkedPres(c, tests, pos, ic, b)
    decreases tests
  {
    hide Emit, Linked, AgreeOffTests, AgreeOn;
    if tests.TestAt? {
      AgreeParts(c, tests, pos, a, b);
      LinkedKept(tests.pre, pos, ic, a, b);
      LinkedPresKept(c, tests.rest, TestPos(tests, pos) + 2, ic + Words(tests.pre) + 1, a, b);
    }
  }

  lemma {:induction false} TestsGoKept(c: Construct, tests: Tests, pos: nat, target: nat, a: Scan, b: Scan)
    requires TestsGo(TestLines(c, tests, pos), target, a) && AgreeOn(pos, pos + |EmitTests(c, tests)|, a, b)
    ensures TestsGo(TestLines(c, tests, pos), target, b)
  {
    forall l | l in TestLines(c, tests, pos)
      ensures Lookup(b.jmpfs, l) == Some(Some(target))
    {
      TestLinesIn(c, tests, pos, l);
    }
  }

  lemma {:induction false} AgreeOffAll(c: Construct, tests: Tests, pos: nat, a: Scan, b: Scan)
    requires AgreeOn(pos, pos + |EmitTests(c, tests)|, a, b)
    ensures AgreeOffTests(c, tests, pos, a, b)
  {
    hide EmitTests, TestLines;
  }

  lemma {:induction false} LinkedItemKept(item: Item, pos: nat, ic: nat, a: Scan, b: Scan)
    requires LinkedItem(item, pos, ic, a) && AgreeOn(pos, pos + |EmitItem(item)|, a, b)
    ensures LinkedItem(item, pos, ic, b)
    decreases item
  {
    hide Emit, EmitTests, EmitItem, Linked, LinkedPres, TestLines;
    match item
    case Branch(c, tests, body, _, other) =>
      BranchLayout([], item, pos);
      AgreeOffAll(c, tests, pos + 1, a, b);
      LinkedPresKept(c, tests, pos + 1, ic, a, b);
      TestsGoKept(c, tests, pos + 1, ic + TestWords(tests) + Words(body) + 1, a, b);
      LinkedKept(body, BodyPos(item, pos), ic + TestWords(tests), a, b);
      LinkedKept(other, SkipPos(item, pos) + 3, ic + TestWords(tests) + Words(body) + 1, a, b);
    case OrElse(tests, _, rhs, _, fill) =>
      OrLayout([], item, pos);
      AgreeOffAll(OrC, tests, pos + 1, a, b);
      LinkedPresKept(OrC, tests, pos + 1, ic, a, b);
      TestsGoKept(OrC, tests, pos + 1, ic + TestWords(tests) + 1, a, b);
      LinkedKept(rhs, FillJmpPos(item, pos) + 3, ic + TestWords(tests) + 1, a, b);
      LinkedKept(fill, ContJmpPos(item, pos) + 3, ic + TestWords(tests) + 1 + Words(rhs) + 1, a, b);
    case Fn(_, body, _) =>
      FnLayout([], item, pos);
      LinkedKept(body, pos + 3, ic + 1, a, b);
    case _ =>
  }

  // ----- the scan of a program -----

  lemma {:induction false} ScanCode(lines: seq<Line>, code: Code, pos: nat, st: Scan)
    requires At(lines, pos, Emit(code)) && WellFormed(code) && NextWord(lines, pos + |Emit(code)|).Some?
    ensures var st' := ScanRange(lines, pos, pos + |Emit(code)|, st);
            && SameStacks(st, st') && Untouched(lines, pos, pos + |Emit(code)|, st, st')
            && Linked(code, pos, WordCount(lines, pos), st')
    decreases code
  {
    hide At, EmitItem, LinkedItem, BranchJump, NextWord, ScanLine, WellFormedItem;
    var end := pos + |Emit(code)|;
    if code.Empty? {
      assert ScanRange(lines, pos, end, st) == st;
    } else {
      CodeLayout(lines, code, pos);
      var mid := pos + |EmitItem(code.head)|;
      WordAhead(lines, mid, end);
      ScanItem(lines, code.head, pos, st);
      var st1 := ScanRange(lines, pos, mid, st);
      ScanCode(lines, code.tail, mid, st1);
      var st2 := ScanRange(lines, mid, end, st1);
      ScanJoin(lines, pos, mid, end, st);
      ItemCounts(lines, code.head, pos);
      UntouchedJoin(lines, pos, end, pos, mid, mid, end, st, st1, st2);
      LinkedItemKept(code.head, pos, WordCount(lines, pos), st1, st2);
    }
  }

  lemma {:induction false} ScanItem(lines: seq<Line>, item: Item, pos: nat, st: Scan)
    requires At(lines, pos, EmitItem(item)) && WellFormedItem(item) && NextWord(lines, pos + |EmitItem(item)|).Some?
    ensures var st' := ScanRange(lines, pos, pos + |EmitItem(item)|, st);
            && SameStacks(st, st') && Untouched(lines, pos, pos + |EmitItem(item)|, st, st')
            && LinkedItem(item, pos, WordCount(lines, pos), st')
    decreases item, 1
  {
    hide At, Emit, EmitTests, LinkedItem, Linked, NextWord, ScanRange, ScanMarker;
    match item
    case Branch(_, _, _, _, _) => ScanBranch(lines, item, pos, st);
    case OrElse(_, _, _, _, _) => ScanOr(lines, item, pos, st);
    case Fn(_, _, _) => ScanFn(lines, item, pos, st);
    case _ => ScanSimple(lines, item, pos, st);
  }

  lemma {:induction false} ScanSimple(lines: seq<Line>, item: Item, pos: nat, st: Scan)
    requires At(lines, pos, EmitItem(item)) && (item.Instr? || item.Note? || item.Load?)
    ensures ScanRange(lines, pos, pos + |EmitItem(item)|, st) == st && LinkedItem(item, pos, WordCount(lines, pos), st)
  {
    hide At, NextWord, ScanRange;
    match item
    case Instr(w) => AtOne(lines, pos, Word(w)); ScanInert(lines, pos, pos + 1, st);
    case Note(b) => AtOne(lines, pos, Comment(b)); ScanInert(lines, pos, pos + 1, st);
    case Load(v, w) => AtTwo(lines, pos, Mark(Const(v)), Word(w)); ScanInert(lines, pos, pos + 2, st);
  }

  lemma {:induction false} ScanFn(lines: seq<Line>, item: Item, pos: nat, st: Scan)
    requires item.Fn? && At(lines, pos, EmitItem(item)) && WellFormedItem(item)
    ensures var st' := ScanRange(lines, pos, pos + |EmitItem(item)|, st);
            && SameStacks(st, st') && Untouched(lines, pos, pos + |EmitItem(item)|, st, st')
            && LinkedItem(item, pos, WordCount(lines, pos), st')
    decreases item, 0
  {
    hide At, Emit, EmitItem, Linked, ScanRange, BranchJump;
    FnCounts(lines, item, pos);
    var end := EndPos(item, pos);
    ScanInert(lines, pos, pos + 3, st);
    assert NextWord(lines, end) == Some(end + 1);
    ScanCode(lines, item.body, pos + 3, st);
    var st1 := ScanRange(lines, pos + 3, end, st);
    ScanInert(lines, end, end + 2, st1);
    ScanJoin(lines, pos, pos + 3, end, st);
    ScanJoin(lines, pos, end, end + 2, st);
  }

  predicate Inert(line: Line) {
    line.Mark? ==> line.m.FnSkip? || line.m.FnStart? || line.m.FnEnd? || line.m.Const?
  }

  lemma {:induction false} ScanInert(lines: seq<Line>, i: nat, j: nat, st: Scan)
    requires i <= j <= |lines| && forall k :: i <= k < j ==> Inert(lines[k])
    ensures ScanRange(lines, i, j, st) == st
    decreases j - i
  {
    hide NextWord;
    if i < j { ScanInert(lines, i, j - 1, st); }
  }

  /** The stacks of `before` with one frame more for `c`. */
  predicate Framed(st: Scan, before: Scan, c: Construct, f: Frame) {
    && st.Stack(c) == before.Stack(c) + [f]
    && (c != IfC ==> st.ifs == before.ifs) && (c != AndC ==> st.ands == before.ands) && (c != OrC ==> st.ors == before.ors)
  }

  lemma {:induction false} FramedOpen(st: Scan, c: Construct)
    ensures Framed(st.WithStack(c, st.Stack(c) + [EMPTY_FRAME]), st, c, EMPTY_FRAME)
  {
  }

  lemma {:induction false} FramedTop(st: Scan, before: Scan, c: Construct, f: Frame, g: Frame)
    requires Framed(st, before, c, f)
    ensures st.Stack(c) != [] && st.Top(c) == f && Framed(st.WithTop(c, g), before, c, g)
    ensures st.WithTop(c, g).jmpfs == st.jmpfs && st.WithTop(c, g).jmps == st.jmps
  {
    assert st.Stack(c)[..|st.Stack(c)| - 1] == before.Stack(c);
  }

  lemma {:induction false} FramedKept(st: Scan, before: Scan, c: Construct, f: Frame, st': Scan)
    requires Framed(st, before, c, f) && SameStacks(st, st')
    ensures Framed(st', before, c, f)
  {
  }

  lemma {:induction false} FramedClose(st: Scan, before: Scan, c: Construct, f: Frame)
    requires Framed(st, before, c, f)
    ensures var popped := st.WithStack(c, st.Stack(c)[..|st.Stack(c)| - 1]);
            SameStacks(before, popped) && popped.jmpfs == st.jmpfs && popped.jmps == st.jmps
  {
    assert st.Stack(c)[..|st.Stack(c)| - 1] == before.Stack(c);
  }

  /** The tests of the innermost open construct `c` are recorded in its frame. */
  lemma {:induction false} ScanTests(lines: seq<Line>, c: Construct, tests: Tests, pos: nat, st: Scan, before: Scan, f: Frame)
    requires At(lines, pos, EmitTests(c, tests)) && WellFormedTests(tests) && Framed(st, before, c, f)
    requires NextWord(lines, pos + |EmitTests(c, tests)|).Some?
    ensures var st' := ScanRange(lines, pos, pos + |EmitTests(c, tests)|, st);
            && Framed(st', before, c, f.(jmpfs := f.jmpfs + TestLines(c, tests, pos)))
            && Untouched(lines, pos, pos + |EmitTests(c, tests)|, st, st')
            && LinkedPres(c, tests, pos, WordCount(lines, pos), st')
    decreases tests
  {
    hide At, Emit, Linked, Untouched, ScanRange, NextWord, Framed, AgreeOn;
    var end := pos + |EmitTests(c, tests)|;
    if tests.NoTests? {
      ScanInert(lines, pos, end, st);
      assert f.jmpfs + [] == f.jmpfs;
      assert Untouched(lines, pos, end, st, st) by { UntouchedSelf(lines, pos, end, st); }
    } else {
      TestLayout(lines, c, tests, pos);
      var at := TestPos(tests, pos);
      WordAhead(lines, at, end);
      ScanCode(lines, tests.pre, pos, st);
      var st1 := ScanRange(lines, pos, at, st);
      FramedKept(st, before, c, f, st1);
      TestStep(lines, c, at, st1, before, f);
      var st2, g := ScanRange(lines, at, at + 2, st1), f.(jmpfs := f.jmpfs + [at + 1]);
      ScanTests(lines, c, tests.rest, at + 2, st2, before, g);
      var st3 := ScanRange(lines, at + 2, end, st2);
      ScanJoin(lines, pos, at, at + 2, st);
      ScanJoin(lines, pos, at + 2, end, st);
      CodeWords(lines, tests.pre, pos);
      assert WordCount(lines, at + 2) == WordCount(lines, at) + 1 by { assert WordCount(lines, at + 1) == WordCount(lines, at); }
      assert g.jmpfs + TestLines(c, tests.rest, at + 2) == f.jmpfs + TestLines(c, tests, pos);
      UntouchedStacks(lines, at + 2, end, st1, st2, st3);
      UntouchedJoin(lines, pos, end, pos, at, at + 2, end, st, st1, st3);
      UntouchedAgree(lines, at + 2, end, pos, at, st1, st3);
      LinkedKept(tests.pre, pos, WordCount(lines, pos), st1, st3);
    }
  }

  lemma {:induction false} UntouchedSelf(lines: seq<Line>, lo: nat, hi: nat, st: Scan)
    ensures Untouched(lines, lo, hi, st, st)
  {
  }

  lemma {:induction false} TestStep(lines: seq<Line>, c: Construct, at: nat, st: Scan, before: Scan, f: Frame)
    requires at + 1 < |lines| && lines[at] == Mark(Test(c)) && lines[at + 1].Word? && Framed(st, before, c, f)
    ensures var st' := ScanRange(lines, at, at + 2, st);
            Framed(st', before, c, f.(jmpfs := f.jmpfs + [at + 1])) && st'.jmpfs == st.jmpfs && st'.jmps == st.jmps
  {
    hide Framed, ScanRange;
    FramedTop(st, before, c, f, f.(jmpfs := f.jmpfs + [at + 1]));
    ScanStep(lines, at, st);
    ScanInert(lines, at + 1, at + 2, ScanRange(lines, at, at + 1, st));
    ScanJoin(lines, at, at + 1, at + 2, st);
  }

  // ----- a branch -----

  lemma {:induction false} OpenStep(lines: seq<Line>, c: Construct, i: nat, st: Scan)
    requires i < |lines| && lines[i] == Mark(Open(c))
    ensures ScanRange(lines, i, i + 1, st) == st.WithStack(c, st.Stack(c) + [EMPTY_FRAME])
  {
    ScanStep(lines, i, st);
  }

  lemma {:induction false} ScanThree(lines: seq<Line>, i: nat, st: Scan)
    requires i + 2 < |lines| && lines[i].Mark? && lines[i + 1].Word? && lines[i + 2].Mark?
    ensures ScanRange(lines, i, i + 3, st) ==
            ScanMarker(lines, i + 2, lines[i + 2].m, ScanMarker(lines, i, lines[i].m, st))
  {
    hide ScanMarker, NextWord;
    ScanStep(lines, i, st);
    var st1 := ScanRange(lines, i, i + 1, st);
    ScanStep(lines, i + 1, st1);
    ScanJoin(lines, i, i + 1, i + 2, st);
    ScanStep(lines, i + 2, st1);
    ScanJoin(lines, i, i + 2, i + 3, st);
  }

  lemma {:induction false} MidStep(lines: seq<Line>, c: Construct, skip: nat, st: Scan, before: Scan, f: Frame)
    requires skip + 2 < |lines| && lines[skip] == Mark(Skip(c)) && lines[skip + 1].Word? && lines[skip + 2] == Mark(Mid(c))
    requires Framed(st, before, c, f)
    ensures var st' := ScanRange(lines, skip, skip + 3, st);
            && Framed(st', before, c, f.(jmp := Some(skip + 1)))
            && st'.jmpfs == SetAll(st.jmpfs, f.jmpfs, InstrAfter(lines, skip + 2)) && st'.jmps == st.jmps
  {
    hide InstrAfter, SetAll, Framed, ScanRange;
    var g := f.(jmp := Some(skip + 1));
    ScanThree(lines, skip, st);
    FramedTop(st, before, c, f, g);
    var st1 := st.WithTop(c, g);
    FramedTop(st1, before, c, g, g);
    FramedKept(st1, before, c, g, ScanRange(lines, skip, skip + 3, st));
  }

  lemma {:induction false} CloseStep(lines: seq<Line>, c: Construct, i: nat, st: Scan, before: Scan, f: Frame)
    requires i < |lines| && lines[i] == Mark(Close(c)) && Framed(st, before, c, f)
    ensures var st', after := ScanRange(lines, i, i + 1, st), InstrAfter(lines, i);
            && SameStacks(before, st') && st'.jmpfs == st.jmpfs
            && st'.jmps == SetJump(SetJump(st.jmps, f.contJmp, after), f.jmp, after)
  {
    hide InstrAfter, SetJump, Framed, ScanRange;
    ScanStep(lines, i, st);
    FramedTop(st, before, c, f, f);
    FramedClose(st, before, c, f);
  }

  lemma {:induction false} SetAllTests(lines: seq<Line>, c: Construct, tests: Tests, pos: nat, st: Scan, st': Scan, target: nat)
    requires st'.jmps == st.jmps && st'.jmpfs == SetAll(st.jmpfs, TestLines(c, tests, pos), Some(target))
    ensures Untouched(lines, pos, pos + |EmitTests(c, tests)|, st, st')
    ensures TestsGo(TestLines(c, tests, pos), target, st')
    ensures AgreeOffTests(c, tests, pos, st, st')
  {
    hide EmitTests, BranchJump;
    var ls := TestLines(c, tests, pos);
    forall l: nat | !(pos <= l < pos + |EmitTests(c, tests)|)
      ensures Lookup(st'.jmpfs, l) == Lookup(st.jmpfs, l)
    {
      if l in ls { TestLinesIn(c, tests, pos, l); }
    }
  }

  lemma {:induction false} UntouchedAgree(lines: seq<Line>, lo: nat, hi: nat, lo': nat, hi': nat, a: Scan, b: Scan)
    requires Untouched(lines, lo, hi, a, b) && (hi' <= lo || hi <= lo')
    ensures AgreeOn(lo', hi', a, b)
  {
    hide BranchJump;
  }

  lemma {:induction false} AgreeJoin(lo: nat, hi: nat, a: Scan, b: Scan, c: Scan)
    requires AgreeOn(lo, hi, a, b) && AgreeOn(lo, hi, b, c)
    ensures AgreeOn(lo, hi, a, c)
  {
  }

  lemma {:induction false} AgreeTests(t: Construct, tests: Tests, pos: nat, a: Scan, b: Scan, c: Scan, d: Scan)
    requires AgreeOn(pos, pos + |EmitTests(t, tests)|, a, b)
    requires AgreeOffTests(t, tests, pos, b, c)
    requires AgreeOn(pos, pos + |EmitTests(t, tests)|, c, d)
    ensures AgreeOffTests(t, tests, pos, a, d)
  {
    hide EmitTests, TestLines;
  }

  /** The states between the parts of a branch. */
  datatype BranchScan = BranchScan(tested: Scan, bodied: Scan, mid: Scan, othered: Scan, end: Scan)

  ghost function BranchStates(lines: seq<Line>, item: Item, pos: nat, st: Scan): BranchScan
    requires item.Branch? && ClosePos(item, pos) < |lines|
  {
    var body, skip, close := BodyPos(item, pos), SkipPos(item, pos), ClosePos(item, pos);
    var s2 := ScanRange(lines, pos + 1, body, st.WithStack(item.c, st.Stack(item.c) + [EMPTY_FRAME]));
    var s3 := ScanRange(lines, body, skip, s2);
    var s4 := ScanRange(lines, skip, skip + 3, s3);
    var s5 := ScanRange(lines, skip + 3, close, s4);
    BranchScan(s2, s3, s4, s5, ScanRange(lines, close, close + 1, s5))
  }

  lemma {:induction false} BranchStatesJoin(lines: seq<Line>, item: Item, pos: nat, st: Scan)
    requires item.Branch? && BranchAt(lines, item, pos)
    ensures ScanRange(lines, pos, ClosePos(item, pos) + 1, st) == BranchStates(lines, item, pos, st).end
  {
    hide At, Emit, EmitTests, ScanRange;
    var body, skip, close := BodyPos(item, pos), SkipPos(item, pos), ClosePos(item, pos);
    OpenStep(lines, item.c, pos, st);
    ScanJoin(lines, pos, pos + 1, body, st);
    ScanJoin(lines, pos, body, skip, st);
    ScanJoin(lines, pos, skip, skip + 3, st);
    ScanJoin(lines, pos, skip + 3, close, st);
    ScanJoin(lines, pos, close, close + 1, st);
  }

  /** The effect of each part of a branch, scanned in turn. */
  lemma {:induction false} BranchParts(lines: seq<Line>, item: Item, pos: nat, st: Scan)
    requires item.Branch? && At(lines, pos, EmitItem(item)) && WellFormedItem(item)
    requires NextWord(lines, pos + |EmitItem(item)|).Some?
    ensures BranchAt(lines, item, pos) && ClosePos(item, pos) + 1 == pos + |EmitItem(item)|
    ensures var b, ic := BranchStates(lines, item, pos, st), WordCount(lines, pos);
            var skip, ls := SkipPos(item, pos), TestLines(item.c, item.tests, pos + 1);
            var at := ic + TestWords(item.tests) + Words(item.body);
            && Untouched(lines, pos + 1, BodyPos(item, pos), st, b.tested) && LinkedPres(item.c, item.tests, pos + 1, ic, b.tested)
            && Untouched(lines, BodyPos(item, pos), skip, b.tested, b.bodied)
            && Linked(item.body, BodyPos(item, pos), ic + TestWords(item.tests), b.bodied)
            && b.mid.jmps == b.bodied.jmps && b.mid.jmpfs == SetAll(b.bodied.jmpfs, ls, Some(at + 1))
            && Untouched(lines, skip + 3, ClosePos(item, pos), b.mid, b.othered)
            && Linked(item.other, skip + 3, at + 1, b.othered)
            && b.end.jmpfs == b.othered.jmpfs && b.end.jmps == b.othered.jmps[skip + 1 := Some(at + 1 + Words(item.other))]
            && SameStacks(st, b.end)
    decreases item, -1
  {
    hide At, Emit, EmitTests, EmitItem, Linked, LinkedPres, Untouched, ScanRange, NextWord, TestLines, InstrAfter, SetAll, Framed;
    var c := item.c;
    BranchCounts(lines, item, pos);
    var body, skip, close := BodyPos(item, pos), SkipPos(item, pos), ClosePos(item, pos);
    var b, s1 := BranchStates(lines, item, pos, st), st.WithStack(c, st.Stack(c) + [EMPTY_FRAME]);
    WordAhead(lines, close, close + 1);
    WordAhead(lines, skip + 3, close);
    WordAhead(lines, skip, close);
    WordAhead(lines, body, skip);
    FramedOpen(st, c);
    ScanTests(lines, c, item.tests, pos + 1, s1, st, EMPTY_FRAME);
    UntouchedStacks(lines, pos + 1, body, st, s1, b.tested);
    var f := EMPTY_FRAME.(jmpfs := TestLines(c, item.tests, pos + 1));
    assert EMPTY_FRAME.jmpfs + f.jmpfs == f.jmpfs;
    ScanCode(lines, item.body, body, b.tested);
    FramedKept(b.tested, st, c, f, b.bodied);
    MidStep(lines, c, skip, b.bodied, st, f);
    InstrAfterIs(lines, skip + 2);
    ScanCode(lines, item.other, skip + 3, b.mid);
    FramedKept(b.mid, st, c, f.(jmp := Some(skip + 1)), b.othered);
    CloseStep(lines, c, close, b.othered, st, f.(jmp := Some(skip + 1)));
    InstrAfterIs(lines, close);
  }

  lemma {:induction false} UntouchedStacks(lines: seq<Line>, lo: nat, hi: nat, a: Scan, a': Scan, b: Scan)
    requires Untouched(lines, lo, hi, a', b) && a'.jmpfs == a.jmpfs && a'.jmps == a.jmps
    ensures Untouched(lines, lo, hi, a, b)
  {
    hide BranchJump;
  }

  lemma {:induction false} SkipUntouched(lines: seq<Line>, l: nat, a: Scan, b: Scan, target: Option<nat>)
    requires BranchJump(lines, l) && b.jmpfs == a.jmpfs && b.jmps == a.jmps[l := target]
    ensures Untouched(lines, l, l + 1, a, b)
  {
  }

  lemma {:induction false} ScanBranch(lines: seq<Line>, item: Item, pos: nat, st: Scan)
    requires item.Branch? && At(lines, pos, EmitItem(item)) && WellFormedItem(item)
    requires NextWord(lines, pos + |EmitItem(item)|).Some?
    ensures var st' := ScanRange(lines, pos, pos + |EmitItem(item)|, st);
            && SameStacks(st, st') && Untouched(lines, pos, pos + |EmitItem(item)|, st, st')
            && LinkedItem(item, pos, WordCount(lines, pos), st')
    decreases item, 0
  {
    hide At, Emit, EmitTests, EmitItem, Linked, LinkedPres, Untouched, ScanRange, NextWord, TestLines, SetAll, BranchStates,
      AgreeOn, AgreeOffTests, TestsGo;
    BranchParts(lines, item, pos, st);
    BranchStatesJoin(lines, item, pos, st);
    var b, ic, c, tests := BranchStates(lines, item, pos, st), WordCount(lines, pos), item.c, item.tests;
    var body, skip, close := BodyPos(item, pos), SkipPos(item, pos), ClosePos(item, pos);
    var at := ic + TestWords(tests) + Words(item.body);
    SetAllTests(lines, c, tests, pos + 1, b.bodied, b.mid, at + 1);
    SkipUntouched(lines, skip + 1, b.othered, b.end, Some(at + 1 + Words(item.other)));
    BranchFrame(lines, pos, close + 1, body, skip, close, st, b);
    // targets found early are still there at the end
    UntouchedAgree(lines, skip + 3, close, pos + 1, skip, b.mid, b.othered);
    UntouchedAgree(lines, skip + 1, skip + 2, pos + 1, skip, b.othered, b.end);
    AgreeJoin(pos + 1, skip, b.mid, b.othered, b.end);
    AgreeNarrow(pos + 1, skip, pos + 1, body, b.mid, b.end);
    AgreeNarrow(pos + 1, skip, body, skip, b.mid, b.end);
    TestsGoKept(c, tests, pos + 1, at + 1, b.mid, b.end);
    UntouchedAgree(lines, body, skip, pos + 1, body, b.tested, b.bodied);
    AgreeTests(c, tests, pos + 1, b.tested, b.bodied, b.mid, b.end);
    LinkedPresKept(c, tests, pos + 1, ic, b.tested, b.end);
    UntouchedAgree(lines, pos + 1, body, body, skip, b.bodied, b.mid);
    AgreeJoin(body, skip, b.bodied, b.mid, b.end);
    LinkedKept(item.body, body, ic + TestWords(tests), b.bodied, b.end);
    UntouchedAgree(lines, skip + 1, skip + 2, skip + 3, close, b.othered, b.end);
    LinkedKept(item.other, skip + 3, at + 1, b.othered, b.end);
  }

  lemma {:induction false} AgreeNarrow(lo: nat, hi: nat, lo': nat, hi': nat, a: Scan, b: Scan)
    requires AgreeOn(lo, hi, a, b) && lo <= lo' && hi' <= hi
    ensures AgreeOn(lo', hi', a, b)
  {
  }

  lemma {:induction false} BranchFrame(lines: seq<Line>, lo: nat, hi: nat, body: nat, skip: nat, close: nat, st: Scan, b: BranchScan)
    requires lo < body <= skip && skip + 3 <= close < hi
    requires Untouched(lines, lo + 1, body, st, b.tested) && Untouched(lines, body, skip, b.tested, b.bodied)
    requires Untouched(lines, lo + 1, body, b.bodied, b.mid) && Untouched(lines, skip + 3, close, b.mid, b.othered)
    requires Untouched(lines, skip + 1, skip + 2, b.othered, b.end)
    ensures Untouched(lines, lo, hi, st, b.end)
  {
    hide Untouched;
    UntouchedJoin(lines, lo, hi, lo + 1, body, body, skip, st, b.tested, b.bodied);
    UntouchedJoin(lines, lo, hi, lo, hi, lo + 1, body, st, b.bodied, b.mid);
    UntouchedJoin(lines, lo, hi, lo, hi, skip + 3, close, st, b.mid, b.othered);
    UntouchedJoin(lines, lo, hi, lo, hi, skip + 1, skip + 2, st, b.othered, b.end);
  }

  // ----- a disjunction -----

  lemma {:induction false} OrMidStep(lines: seq<Line>, skip: nat, st: Scan, before: Scan, f: Frame)
    requires skip + 2 < |lines| && lines[skip] == Mark(OrFillJmp) && lines[skip + 1].Word? && lines[skip + 2] == Mark(Mid(OrC))
    requires Framed(st, before, OrC, f)
    ensures var st' := ScanRange(lines, skip, skip + 3, st);
            && Framed(st', before, OrC, f.(fillJmp := Some(skip + 1)))
            && st'.jmpfs == SetAll(st.jmpfs, f.jmpfs, InstrAfter(lines, skip + 2)) && st'.jmps == st.jmps
  {
    hide InstrAfter, SetAll, Framed, ScanRange;
    var g := f.(fillJmp := Some(skip + 1));
    ScanThree(lines, skip, st);
    FramedTop(st, before, OrC, f, g);
    var st1 := st.WithTop(OrC, g);
    FramedTop(st1, before, OrC, g, g);
    FramedKept(st1, before, OrC, g, ScanRange(lines, skip, skip + 3, st));
  }

  lemma {:induction false} OrFillStep(lines: seq<Line>, cont: nat, st: Scan, before: Scan, f: Frame)
    requires cont + 2 < |lines| && lines[cont] == Mark(OrContJmp) && lines[cont + 1].Word? && lines[cont + 2] == Mark(OrFill)
    requires Framed(st, before, OrC, f)
    ensures var st' := ScanRange(lines, cont, cont + 3, st);
            && Framed(st', before, OrC, f.(contJmp := Some(cont + 1)))
            && st'.jmpfs == st.jmpfs && st'.jmps == SetJump(st.jmps, f.fillJmp, InstrAfter(lines, cont + 2))
  {
    hide InstrAfter, SetJump, Framed, ScanRange;
    var g := f.(contJmp := Some(cont + 1));
    ScanThree(lines, cont, st);
    FramedTop(st, before, OrC, f, g);
    var st1 := st.WithTop(OrC, g);
    FramedTop(st1, before, OrC, g, g);
    FramedKept(st1, before, OrC, g, ScanRange(lines, cont, cont + 3, st));
  }

  datatype OrScan = OrScan(tested: Scan, mid: Scan, rhsed: Scan, cont: Scan, filled: Scan, end: Scan)

  ghost function OrStates(lines: seq<Line>, item: Item, pos: nat, st: Scan): OrScan
    requires item.OrElse? && OrClosePos(item, pos) < |lines|
  {
    var skip, cont, close := FillJmpPos(item, pos), ContJmpPos(item, pos), OrClosePos(item, pos);
    var s2 := ScanRange(lines, pos + 1, skip, st.WithStack(OrC, st.ors + [EMPTY_FRAME]));
    var s3 := ScanRange(lines, skip, skip + 3, s2);
    var s4 := ScanRange(lines, skip + 3, cont, s3);
    var s5 := ScanRange(lines, cont, cont + 3, s4);
    var s6 := ScanRange(lines, cont + 3, close, s5);
    OrScan(s2, s3, s4, s5, s6, ScanRange(lines, close, close + 1, s6))
  }

  lemma {:induction false} OrStatesJoin(lines: seq<Line>, item: Item, pos: nat, st: Scan)
    requires item.OrElse? && OrAt(lines, item, pos)
    ensures ScanRange(lines, pos, OrClosePos(item, pos) + 1, st) == OrStates(lines, item, pos, st).end
  {
    hide At, Emit, EmitTests, ScanRange;
    var skip, cont, close := FillJmpPos(item, pos), ContJmpPos(item, pos), OrClosePos(item, pos);
    OpenStep(lines, OrC, pos, st);
    ScanJoin(lines, pos, pos + 1, skip, st);
    ScanJoin(lines, pos, skip, skip + 3, st);
    ScanJoin(lines, pos, skip + 3, cont, st);
    ScanJoin(lines, pos, cont, cont + 3, st);
    ScanJoin(lines, pos, cont + 3, close, st);
    ScanJoin(lines, pos, close, close + 1, st);
  }

  lemma {:induction false} OrParts(lines: seq<Line>, item: Item, pos: nat, st: Scan)
    requires item.OrElse? && At(lines, pos, EmitItem(item)) && WellFormedItem(item)
    requires NextWord(lines, pos + |EmitItem(item)|).Some?
    ensures OrAt(lines, item, pos) && OrClosePos(item, pos) + 1 == pos + |EmitItem(item)|
    ensures var o, ic := OrStates(lines, item, pos, st), WordCount(lines, pos);
            var skip, cont, ls := FillJmpPos(item, pos), ContJmpPos(item, pos), TestLines(OrC, item.tests, pos + 1);
            var at := ic + TestWords(item.tests);
            var doneAt := at + 1 + Words(item.rhs);
            && Untouched(lines, pos + 1, skip, st, o.tested) && LinkedPres(OrC, item.tests, pos + 1, ic, o.tested)
            && o.mid.jmps == o.tested.jmps && o.mid.jmpfs == SetAll(o.tested.jmpfs, ls, Some(at + 1))
            && Untouched(lines, skip + 3, cont, o.mid, o.rhsed) && Linked(item.rhs, skip + 3, at + 1, o.rhsed)
            && o.cont.jmpfs == o.rhsed.jmpfs && o.cont.jmps == o.rhsed.jmps[skip + 1 := Some(doneAt + 1)]
            && Untouched(lines, cont + 3, OrClosePos(item, pos), o.cont, o.filled)
            && Linked(item.fill, cont + 3, doneAt + 1, o.filled)
            && o.end.jmpfs == o.filled.jmpfs && o.end.jmps == o.filled.jmps[cont + 1 := Some(doneAt + 1 + Words(item.fill))]
            && SameStacks(st, o.end)
    decreases item, -1
  {
    hide At, Emit, EmitTests, EmitItem, Linked, LinkedPres, Untouched, ScanRange, NextWord, TestLines, InstrAfter, SetAll, Framed;
    OrCounts(lines, item, pos);
    var skip, cont, close := FillJmpPos(item, pos), ContJmpPos(item, pos), OrClosePos(item, pos);
    var o, s1 := OrStates(lines, item, pos, st), st.WithStack(OrC, st.ors + [EMPTY_FRAME]);
    WordAhead(lines, close, close + 1);
    WordAhead(lines, cont + 3, close);
    WordAhead(lines, cont, close);
    WordAhead(lines, skip + 3, cont);
    WordAhead(lines, skip, cont);
    FramedOpen(st, OrC);
    ScanTests(lines, OrC, item.tests, pos + 1, s1, st, EMPTY_FRAME);
    UntouchedStacks(lines, pos + 1, skip, st, s1, o.tested);
    var f := EMPTY_FRAME.(jmpfs := TestLines(OrC, item.tests, pos + 1));
    assert EMPTY_FRAME.jmpfs + f.jmpfs == f.jmpfs;
    OrMidStep(lines, skip, o.tested, st, f);
    InstrAfterIs(lines, skip + 2);
    var g := f.(fillJmp := Some(skip + 1));
    ScanCode(lines, item.rhs, skip + 3, o.mid);
    FramedKept(o.mid, st, OrC, g, o.rhsed);
    OrFillStep(lines, cont, o.rhsed, st, g);
    InstrAfterIs(lines, cont + 2);
    var h := g.(contJmp := Some(cont + 1));
    ScanCode(lines, item.fill, cont + 3, o.cont);
    FramedKept(o.cont, st, OrC, h, o.filled);
    CloseStep(lines, OrC, close, o.filled, st, h);
    InstrAfterIs(lines, close);
  }

  lemma {:induction false} OrFrame(lines: seq<Line>, lo: nat, hi: nat, skip: nat, cont: nat, close: nat, st: Scan, o: OrScan)
    requires lo < skip && skip + 3 <= cont && cont + 3 <= close < hi
    requires Untouched(lines, lo + 1, skip, st, o.tested) && Untouched(lines, lo + 1, skip, o.tested, o.mid)
    requires Untouched(lines, skip + 3, cont, o.mid, o.rhsed) && Untouched(lines, skip + 1, skip + 2, o.rhsed, o.cont)
    requires Untouched(lines, cont + 3, close, o.cont, o.filled) && Untouched(lines, cont + 1, cont + 2, o.filled, o.end)
    ensures Untouched(lines, lo, hi, st, o.end)
    ensures Untouched(lines, skip + 1, hi, o.mid, o.end)
    ensures Untouched(lines, cont + 1, hi, o.cont, o.end)
  {
    hide Untouched;
    UntouchedJoin(lines, cont + 1, hi, cont + 3, close, cont + 1, cont + 2, o.cont, o.filled, o.end);
    UntouchedJoin(lines, skip + 1, hi, skip + 3, cont, skip + 1, skip + 2, o.mid, o.rhsed, o.cont);
    UntouchedJoin(lines, skip + 1, hi, skip + 1, hi, cont + 1, hi, o.mid, o.cont, o.end);
    UntouchedJoin(lines, lo, hi, lo + 1, skip, lo + 1, skip, st, o.tested, o.mid);
    UntouchedJoin(lines, lo, hi, lo, hi, skip + 1, hi, st, o.mid, o.end);
  }

  lemma {:induction false} AgreeSelf(lo: nat, hi: nat, a: Scan)
    ensures AgreeOn(lo, hi, a, a)
  {
  }

  lemma {:induction false} ScanOr(lines: seq<Line>, item: Item, pos: nat, st: Scan)
    requires item.OrElse? && At(lines, pos, EmitItem(item)) && WellFormedItem(item)
    requires NextWord(lines, pos + |EmitItem(item)|).Some?
    ensures var st' := ScanRange(lines, pos, pos + |EmitItem(item)|, st);
            && SameStacks(st, st') && Untouched(lines, pos, pos + |EmitItem(item)|, st, st')
            && LinkedItem(item, pos, WordCount(lines, pos), st')
    decreases item, 0
  {
    hide At, Emit, EmitTests, EmitItem, Linked, LinkedPres, Untouched, ScanRange, NextWord, TestLines, SetAll, OrStates,
      AgreeOn, AgreeOffTests, TestsGo;
    OrParts(lines, item, pos, st);
    OrStatesJoin(lines, item, pos, st);
    var o, ic, tests := OrStates(lines, item, pos, st), WordCount(lines, pos), item.tests;
    var skip, cont, close := FillJmpPos(item, pos), ContJmpPos(item, pos), OrClosePos(item, pos);
    var at := ic + TestWords(tests);
    var doneAt := at + 1 + Words(item.rhs);
    SetAllTests(lines, OrC, tests, pos + 1, o.tested, o.mid, at + 1);
    SkipUntouched(lines, skip + 1, o.rhsed, o.cont, Some(doneAt + 1));
    SkipUntouched(lines, cont + 1, o.filled, o.end, Some(doneAt + 1 + Words(item.fill)));
    OrFrame(lines, pos, close + 1, skip, cont, close, st, o);
    // targets found early are still there at the end
    UntouchedAgree(lines, skip + 1, close + 1, pos + 1, skip, o.mid, o.end);
    TestsGoKept(OrC, tests, pos + 1, at + 1, o.mid, o.end);
    AgreeSelf(pos + 1, skip, o.tested);
    AgreeTests(OrC, tests, pos + 1, o.tested, o.tested, o.mid, o.end);
    LinkedPresKept(OrC, tests, pos + 1, ic, o.tested, o.end);
    UntouchedAgree(lines, skip + 1, skip + 2, skip + 3, cont, o.rhsed, o.cont);
    UntouchedAgree(lines, cont + 1, close + 1, skip + 1, cont, o.cont, o.end);
    AgreeNarrow(skip + 1, cont, skip + 3, cont, o.cont, o.end);
    AgreeJoin(skip + 3, cont, o.rhsed, o.cont, o.end);
    LinkedKept(item.rhs, skip + 3, at + 1, o.rhsed, o.end);
    AgreeLookup(skip + 1, cont, skip + 1, o.cont, o.end);
    UntouchedAgree(lines, cont + 1, cont + 2, cont + 3, close, o.filled, o.end);
    LinkedKept(item.fill, cont + 3, doneAt + 1, o.filled, o.end);
  }

  lemma {:induction false} AgreeLookup(lo: nat, hi: nat, l: nat, a: Scan, b: Scan)
    requires AgreeOn(lo, hi, a, b) && lo <= l < hi
    ensures Lookup(b.jmps, l) == Lookup(a.jmps, l)
  {
  }
}
