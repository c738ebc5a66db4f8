/** The linear scans find, for every jump of a structured program, the target
    that its place in the tree dictates. */
module HexScan {
  import opened Bytecode
  import opened HexFixup
  import opened HexTree

  // ----- streams inside a larger stream -----

  predicate At(lines: seq<Line>, pos: nat, xs: seq<Line>) {
    pos + |xs| <= |lines| && lines[pos..pos + |xs|] == xs
  }

  lemma {:induction false} AtSplit(lines: seq<Line>, pos: nat, xs: seq<Line>, ys: seq<Line>)
    ensures At(lines, pos, xs + ys) <==> At(lines, pos, xs) && At(lines, pos + |xs|, ys)
  {
    if At(lines, pos, xs + ys) {
      assert lines[pos..pos + |xs|] == lines[pos..pos + |xs + ys|][..|xs|] == xs;
      assert lines[pos + |xs|..pos + |xs| + |ys|] == lines[pos..pos + |xs + ys|][|xs|..] == ys;
    }
    if At(lines, pos, xs) && At(lines, pos + |xs|, ys) {
      assert lines[pos..pos + |xs + ys|] == lines[pos..pos + |xs|] + lines[pos + |xs|..pos + |xs| + |ys|];
    }
  }

  lemma {:induction false} AtOne(lines: seq<Line>, pos: nat, x: Line)
    ensures At(lines, pos, [x]) <==> pos < |lines| && lines[pos] == x
  {
    if pos < |lines| { assert lines[pos..pos + 1] == [lines[pos]]; }
  }

  lemma {:induction false} AtTwo(lines: seq<Line>, pos: nat, x: Line, y: Line)
    ensures At(lines, pos, [x, y]) <==> pos + 1 < |lines| && lines[pos] == x && lines[pos + 1] == y
  {
    if pos + 1 < |lines| { assert lines[pos..pos + 2] == [lines[pos], lines[pos + 1]]; }
  }

  lemma {:induction false} AtThree(lines: seq<Line>, pos: nat, x: Line, y: Line, z: Line)
    ensures At(lines, pos, [x, y, z]) <==>
            pos + 2 < |lines| && lines[pos] == x && lines[pos + 1] == y && lines[pos + 2] == z
  {
    if pos + 2 < |lines| { assert lines[pos..pos + 3] == [lines[pos], lines[pos + 1], lines[pos + 2]]; }
  }

  // ----- where the parts of a construct are -----

  function BodyPos(item: Item, pos: nat): nat
    requires item.Branch?
  {
    pos + 1 + |EmitTests(item.c, item.tests)|
  }

  function SkipPos(item: Item, pos: nat): nat
    requires item.Branch?
  {
    BodyPos(item, pos) + |Emit(item.body)|
  }

  function ClosePos(item: Item, pos: nat): nat
    requires item.Branch?
  {
    SkipPos(item, pos) + 3 + |Emit(item.other)|
  }

  /** A branch laid out at `pos`. */
  predicate BranchAt(lines: seq<Line>, item: Item, pos: nat)
    requires item.Branch?
  {
    var skip, close := SkipPos(item, pos), ClosePos(item, pos);
    && close < |lines|
    && lines[pos] == Mark(Open(item.c))
    && At(lines, pos + 1, EmitTests(item.c, item.tests))
    && At(lines, BodyPos(item, pos), Emit(item.body))
    && lines[skip] == Mark(Skip(item.c)) && lines[skip + 1] == Word(item.jmp) && lines[skip + 2] == Mark(Mid(item.c))
    && At(lines, skip + 3, Emit(item.other))
    && lines[close] == Mark(Close(item.c))
  }

  lemma {:induction false} BranchLayout(lines: seq<Line>, item: Item, pos: nat)
    requires item.Branch?
    ensures |EmitItem(item)| == ClosePos(item, pos) + 1 - pos
    ensures At(lines, pos, EmitItem(item)) ==> BranchAt(lines, item, pos)
  {
    hide Emit, EmitTests, At;
    var Branch(c, tests, body, jmp, other) := item;
    var a, b, d := [Mark(Open(c))], EmitTests(c, tests), Emit(body);
    var e, f, g := [Mark(Skip(c)), Word(jmp), Mark(Mid(c))], Emit(other), [Mark(Close(c))];
    assert EmitItem(item) == a + b + d + e + f + g;
    AtSplit(lines, pos, a + b + d + e + f, g);
    AtSplit(lines, pos, a + b + d + e, f);
    AtSplit(lines, pos, a + b + d, e);
    AtSplit(lines, pos, a + b, d);
    AtSplit(lines, pos, a, b);
    AtOne(lines, pos, Mark(Open(c)));
    AtThree(lines, SkipPos(item, pos), Mark(Skip(c)), Word(jmp), Mark(Mid(c)));
    AtOne(lines, ClosePos(item, pos), Mark(Close(c)));
  }

  function FillJmpPos(item: Item, pos: nat): nat
    requires item.OrElse?
  {
    pos + 1 + |EmitTests(OrC, item.tests)|
  }

  function ContJmpPos(item: Item, pos: nat): nat
    requires item.OrElse?
  {
    FillJmpPos(item, pos) + 3 + |Emit(item.rhs)|
  }

  function OrClosePos(item: Item, pos: nat): nat
    requires item.OrElse?
  {
    ContJmpPos(item, pos) + 3 + |Emit(item.fill)|
  }

  predicate OrAt(lines: seq<Line>, item: Item, pos: nat)
    requires item.OrElse?
  {
    var skip, cont, close := FillJmpPos(item, pos), ContJmpPos(item, pos), OrClosePos(item, pos);
    && close < |lines|
    && lines[pos] == Mark(Open(OrC))
    && At(lines, pos + 1, EmitTests(OrC, item.tests))
    && lines[skip] == Mark(OrFillJmp) && lines[skip + 1] == Word(item.skip) && lines[skip + 2] == Mark(Mid(OrC))
    && At(lines, skip + 3, Emit(item.rhs))
    && lines[cont] == Mark(OrContJmp) && lines[cont + 1] == Word(item.done) && lines[cont + 2] == Mark(OrFill)
    && At(lines, cont + 3, Emit(item.fill))
    && lines[close] == Mark(Close(OrC))
  }

  lemma {:induction false} OrLayout(lines: seq<Line>, item: Item, pos: nat)
    requires item.OrElse?
    ensures |EmitItem(item)| == OrClosePos(item, pos) + 1 - pos
    ensures At(lines, pos, EmitItem(item)) ==> OrAt(lines, item, pos)
  {
    hide Emit, EmitTests, At;
    var OrElse(tests, skip, rhs, done, fill) := item;
    var a, b := [Mark(Open(OrC))], EmitTests(OrC, tests);
    var d, e := [Mark(OrFillJmp), Word(skip), Mark(Mid(OrC))], Emit(rhs);
    var f, g, h := [Mark(OrContJmp), Word(done), Mark(OrFill)], Emit(fill), [Mark(Close(OrC))];
    assert EmitItem(item) == a + b + d + e + f + g + h;
    AtSplit(lines, pos, a + b + d + e + f + g, h);
    AtSplit(lines, pos, a + b + d + e + f, g);
    AtSplit(lines, pos, a + b + d + e, f);
    AtSplit(lines, pos, a + b + d, e);
    AtSplit(lines, pos, a + b, d);
    AtSplit(lines, pos, a, b);
    AtOne(lines, pos, Mark(Open(OrC)));
    AtThree(lines, FillJmpPos(item, pos), Mark(OrFillJmp), Word(skip), Mark(Mid(OrC)));
    AtThree(lines, ContJmpPos(item, pos), Mark(OrContJmp), Word(done), Mark(OrFill));
    AtOne(lines, OrClosePos(item, pos), Mark(Close(OrC)));
  }

  function EndPos(item: Item, pos: nat): nat
    requires item.Fn?
  {
    pos + 3 + |Emit(item.body)|
  }

  predicate FnAt(lines: seq<Line>, item: Item, pos: nat)
    requires item.Fn?
  {
    var end := EndPos(item, pos);
    && end + 1 < |lines|
    && lines[pos] == Mark(FnSkip) && lines[pos + 1] == Word(item.skip) && lines[pos + 2] == Mark(FnStart)
    && At(lines, pos + 3, Emit(item.body))
    && lines[end] == Mark(FnEnd) && lines[end + 1] == Word(item.closure)
  }

  lemma {:induction false} FnLayout(lines: seq<Line>, item: Item, pos: nat)
    requires item.Fn?
    ensures |EmitItem(item)| == EndPos(item, pos) + 2 - pos
    ensures At(lines, pos, EmitItem(item)) ==> FnAt(lines, item, pos)
  {
    hide Emit, At;
    var Fn(skip, body, closure) := item;
    var a, b, d := [Mark(FnSkip), Word(skip), Mark(FnStart)], Emit(body), [Mark(FnEnd), Word(closure)];
    assert EmitItem(item) == a + b + d;
    AtSplit(lines, pos, a + b, d);
    AtSplit(lines, pos, a, b);
    AtThree(lines, pos, Mark(FnSkip), Word(skip), Mark(FnStart));
    AtTwo(lines, EndPos(item, pos), Mark(FnEnd), Word(closure));
  }

  function TestPos(tests: Tests, pos: nat): nat
    requires tests.TestAt?
  {
    pos + |Emit(tests.pre)|
  }

  lemma {:induction false} TestLayout(lines: seq<Line>, c: Construct, tests: Tests, pos: nat)
    requires tests.TestAt?
    ensures |EmitTests(c, tests)| == |Emit(tests.pre)| + 2 + |EmitTests(c, tests.rest)|
    ensures At(lines, pos, EmitTests(c, tests)) ==>
              var at := TestPos(tests, pos);
              && At(lines, pos, Emit(tests.pre))
              && at + 1 < |lines| && lines[at] == Mark(Test(c)) && lines[at + 1] == Word(tests.w)
              && At(lines, at + 2, EmitTests(c, tests.rest))
  {
    hide Emit, At;
    var a, b, d := Emit(tests.pre), [Mark(Test(c)), Word(tests.w)], EmitTests(c, tests.rest);
    assert EmitTests(c, tests) == a + b + d;
    AtSplit(lines, pos, a + b, d);
    AtSplit(lines, pos, a, b);
    AtTwo(lines, TestPos(tests, pos), Mark(Test(c)), Word(tests.w));
  }

  lemma {:induction false} CodeLayout(lines: seq<Line>, code: Code, pos: nat)
    requires code.Then?
    ensures |Emit(code)| == |EmitItem(code.head)| + |Emit(code.tail)|
    ensures At(lines, pos, Emit(code)) ==>
              At(lines, pos, EmitItem(code.head)) && At(lines, pos + |EmitItem(code.head)|, Emit(code.tail))
  {
    hide EmitItem, At;
    AtSplit(lines, pos, EmitItem(code.head), Emit(code.tail));
  }

  // ----- counting -----

  lemma {:induction false} CodeWords(lines: seq<Line>, code: Code, pos: nat)
    requires At(lines, pos, Emit(code))
    ensures WordCount(lines, pos + |Emit(code)|) == WordCount(lines, pos) + Words(code)
    ensures FnCount(lines, pos + |Emit(code)|) == FnCount(lines, pos) + Fns(code)
    decreases code
  {
    hide At, EmitItem, ItemWords, ItemFns;
    if code.Then? {
      CodeLayout(lines, code, pos);
      ItemCounts(lines, code.head, pos);
      CodeWords(lines, code.tail, pos + |EmitItem(code.head)|);
    }
  }

  lemma {:induction false} TestCounts(lines: seq<Line>, c: Construct, tests: Tests, pos: nat)
    requires At(lines, pos, EmitTests(c, tests))
    ensures WordCount(lines, pos + |EmitTests(c, tests)|) == WordCount(lines, pos) + TestWords(tests)
    ensures FnCount(lines, pos + |EmitTests(c, tests)|) == FnCount(lines, pos) + TestFns(tests)
    decreases tests
  {
    hide At, Emit;
    if tests.TestAt? {
      TestLayout(lines, c, tests, pos);
      var at := TestPos(tests, pos);
      CodeWords(lines, tests.pre, pos);
      assert WordCount(lines, at + 1) == WordCount(lines, at) && FnCount(lines, at + 1) == FnCount(lines, at);
      TestCounts(lines, c, tests.rest, at + 2);
    }
  }

  lemma {:induction false} ItemCounts(lines: seq<Line>, item: Item, pos: nat)
    requires At(lines, pos, EmitItem(item))
    ensures WordCount(lines, pos + |EmitItem(item)|) == WordCount(lines, pos) + ItemWords(item)
    ensures FnCount(lines, pos + |EmitItem(item)|) == FnCount(lines, pos) + ItemFns(item)
    decreases item
  {
    hide At, Emit, EmitTests;
    match item
    case Instr(w) => AtOne(lines, pos, Word(w));
    case Note(b) => AtOne(lines, pos, Comment(b));
    case Load(v, w) =>
      AtTwo(lines, pos, Mark(Const(v)), Word(w));
      assert WordCount(lines, pos + 1) == WordCount(lines, pos) && FnCount(lines, pos + 1) == FnCount(lines, pos);
    case Branch(_, _, _, _, _) => BranchCounts(lines, item, pos);
    case OrElse(_, _, _, _, _) => OrCounts(lines, item, pos);
    case Fn(_, _, _) => FnCounts(lines, item, pos);
  }

  lemma {:induction false} ThreeCounts(lines: seq<Line>, i: nat)
    requires i + 2 < |lines| && lines[i].Mark? && lines[i].m != FnStart && lines[i + 1].Word? && lines[i + 2].Mark?
    ensures WordCount(lines, i + 1) == WordCount(lines, i) && WordCount(lines, i + 2) == WordCount(lines, i) + 1
    ensures WordCount(lines, i + 3) == WordCount(lines, i) + 1
    ensures FnCount(lines, i + 2) == FnCount(lines, i)
    ensures FnCount(lines, i + 3) == FnCount(lines, i) + (if lines[i + 2].m == FnStart then 1 else 0)
  {
    assert WordCount(lines, i + 1) == WordCount(lines, i) && FnCount(lines, i + 1) == FnCount(lines, i);
    assert WordCount(lines, i + 2) == WordCount(lines, i) + 1 && FnCount(lines, i + 2) == FnCount(lines, i);
  }

  lemma {:induction false} BranchCounts(lines: seq<Line>, item: Item, pos: nat)
    requires item.Branch? && At(lines, pos, EmitItem(item))
    ensures BranchAt(lines, item, pos) && ClosePos(item, pos) + 1 == pos + |EmitItem(item)|
    ensures WordCount(lines, pos + 1) == WordCount(lines, pos) && FnCount(lines, pos + 1) == FnCount(lines, pos)
    ensures WordCount(lines, BodyPos(item, pos)) == WordCount(lines, pos) + TestWords(item.tests)
    ensures FnCount(lines, BodyPos(item, pos)) == FnCount(lines, pos) + TestFns(item.tests)
    ensures var skip := SkipPos(item, pos);
            && WordCount(lines, skip + 1) == WordCount(lines, BodyPos(item, pos)) + Words(item.body)
            && WordCount(lines, skip + 3) == WordCount(lines, skip + 1) + 1
            && FnCount(lines, skip + 3) == FnCount(lines, BodyPos(item, pos)) + Fns(item.body)
    ensures WordCount(lines, pos + |EmitItem(item)|) == WordCount(lines, SkipPos(item, pos) + 3) + Words(item.other)
    ensures FnCount(lines, pos + |EmitItem(item)|) == FnCount(lines, SkipPos(item, pos) + 3) + Fns(item.other)
    decreases item, 0
  {
    hide At, Emit, EmitTests, EmitItem;
    BranchLayout(lines, item, pos);
    assert WordCount(lines, pos + 1) == WordCount(lines, pos) && FnCount(lines, pos + 1) == FnCount(lines, pos);
    TestCounts(lines, item.c, item.tests, pos + 1);
    CodeWords(lines, item.body, BodyPos(item, pos));
    ThreeCounts(lines, SkipPos(item, pos));
    CodeWords(lines, item.other, SkipPos(item, pos) + 3);
    var close := ClosePos(item, pos);
    assert WordCount(lines, close + 1) == WordCount(lines, close) && FnCount(lines, close + 1) == FnCount(lines, close);
  }

  lemma {:induction false} OrCounts(lines: seq<Line>, item: Item, pos: nat)
    requires item.OrElse? && At(lines, pos, EmitItem(item))
    ensures OrAt(lines, item, pos) && OrClosePos(item, pos) + 1 == pos + |EmitItem(item)|
    ensures WordCount(lines, pos + 1) == WordCount(lines, pos) && FnCount(lines, pos + 1) == FnCount(lines, pos)
    ensures var skip := FillJmpPos(item, pos);
            && WordCount(lines, skip + 1) == WordCount(lines, pos) + TestWords(item.tests)
            && WordCount(lines, skip + 3) == WordCount(lines, skip + 1) + 1
            && FnCount(lines, skip + 3) == FnCount(lines, pos) + TestFns(item.tests)
    ensures var skip, cont := FillJmpPos(item, pos), ContJmpPos(item, pos);
            && WordCount(lines, cont + 1) == WordCount(lines, skip + 3) + Words(item.rhs)
            && WordCount(lines, cont + 3) == WordCount(lines, cont + 1) + 1
            && FnCount(lines, cont + 3) == FnCount(lines, skip + 3) + Fns(item.rhs)
    ensures WordCount(lines, pos + |EmitItem(item)|) == WordCount(lines, ContJmpPos(item, pos) + 3) + Words(item.fill)
    ensures FnCount(lines, pos + |EmitItem(item)|) == FnCount(lines, ContJmpPos(item, pos) + 3) + Fns(item.fill)
    decreases item, 0
  {
    hide At, Emit, EmitTests, EmitItem;
    OrLayout(lines, item, pos);
    assert WordCount(lines, pos + 1) == WordCount(lines, pos) && FnCount(lines, pos + 1) == FnCount(lines, pos);
    TestCounts(lines, OrC, item.tests, pos + 1);
    ThreeCounts(lines, FillJmpPos(item, pos));
    CodeWords(lines, item.rhs, FillJmpPos(item, pos) + 3);
    ThreeCounts(lines, ContJmpPos(item, pos));
    CodeWords(lines, item.fill, ContJmpPos(item, pos) + 3);
    var close := OrClosePos(item, pos);
    assert WordCount(lines, close + 1) == WordCount(lines, close) && FnCount(lines, close + 1) == FnCount(lines, close);
  }

  lemma {:induction false} FnCounts(lines: seq<Line>, item: Item, pos: nat)
    requires item.Fn? && At(lines, pos, EmitItem(item))
    ensures FnAt(lines, item, pos) && EndPos(item, pos) + 2 == pos + |EmitItem(item)|
    ensures WordCount(lines, pos + 1) == WordCount(lines, pos) && WordCount(lines, pos + 3) == WordCount(lines, pos) + 1
    ensures FnCount(lines, pos + 2) == FnCount(lines, pos) && FnCount(lines, pos + 3) == FnCount(lines, pos) + 1
    ensures var end := EndPos(item, pos);
            && WordCount(lines, end + 1) == WordCount(lines, pos + 3) + Words(item.body)
            && WordCount(lines, end + 2) == WordCount(lines, end + 1) + 1
            && FnCount(lines, end + 2) == FnCount(lines, pos + 3) + Fns(item.body)
    decreases item, 0
  {
    hide At, Emit, EmitItem;
    FnLayout(lines, item, pos);
    ThreeCounts(lines, pos);
    CodeWords(lines, item.body, pos + 3);
    var end := EndPos(item, pos);
    assert WordCount(lines, end + 1) == WordCount(lines, end) && FnCount(lines, end + 1) == FnCount(lines, end);
    assert WordCount(lines, end + 2) == WordCount(lines, end + 1) + 1 && FnCount(lines, end + 2) == FnCount(lines, end + 1);
  }
}
