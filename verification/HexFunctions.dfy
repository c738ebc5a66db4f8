/** Function starts and ends: the second scan of bootstrap/fixup_hex.py pairs
    each start with its own end, however deeply functions nest. */
module HexFunctions {
  import opened Bytecode
  import opened HexFixup
  import opened HexTree
  import opened HexScan

  lemma {:induction false} FnScanJoin(lines: seq<Line>, i: nat, j: nat, k: nat, st: FnScan)
    requires i <= j <= k <= |lines|
    ensures FnScanRange(lines, i, k, st) == FnScanRange(lines, j, k, FnScanRange(lines, i, j, st))
    decreases k - j
  {
    hide FnScanLine;
    if j < k { FnScanJoin(lines, i, j, k - 1, st); }
  }

  lemma {:induction false} FnScanStep(lines: seq<Line>, i: nat, st: FnScan)
    requires i < |lines|
    ensures FnScanRange(lines, i, i + 1, st) == FnScanLine(lines, i, st)
  {
    hide FnScanLine;
    assert FnScanRange(lines, i, i, st) == st;
  }

  predicate Quiet(line: Line) { line != Mark(FnStart) && line != Mark(FnEnd) }

  lemma {:induction false} FnScanQuiet(lines: seq<Line>, i: nat, j: nat, st: FnScan)
    requires i <= j <= |lines| && forall k :: i <= k < j ==> Quiet(lines[k])
    ensures FnScanRange(lines, i, j, st) == st
    decreases j - i
  {
    if i < j { FnScanQuiet(lines, i, j - 1, st); }
  }

  // ----- pairs of a program -----

  predicate FnLinked(code: Code, pos: nat, ends: map<nat, nat>)
    decreases code
  {
    code.Then? ==> FnLinkedItem(code.head, pos, ends) && FnLinked(code.tail, pos + |EmitItem(code.head)|, ends)
  }

  predicate FnLinkedTests(c: Construct, tests: Tests, pos: nat, ends: map<nat, nat>)
    decreases tests
  {
    tests.TestAt? ==> FnLinked(tests.pre, pos, ends) && FnLinkedTests(c, tests.rest, TestPos(tests, pos) + 2, ends)
  }

  predicate FnLinkedItem(item: Item, pos: nat, ends: map<nat, nat>)
    decreases item
  {
    match item
    case Branch(c, tests, body, _, other) =>
      && FnLinkedTests(c, tests, pos + 1, ends) && FnLinked(body, BodyPos(item, pos), ends)
      && FnLinked(other, SkipPos(item, pos) + 3, ends)
    case OrElse(tests, _, rhs, _, fill) =>
      && FnLinkedTests(OrC, tests, pos + 1, ends) && FnLinked(rhs, FillJmpPos(item, pos) + 3, ends)
      && FnLinked(fill, ContJmpPos(item, pos) + 3, ends)
    case Fn(_, body, _) =>
      FnLinked(body, pos + 3, ends) && pos + 2 in ends && ends[pos + 2] == EndPos(item, pos)
    case _ => true
  }

  predicate EndsKept(lo: nat, hi: nat, a: map<nat, nat>, b: map<nat, nat>) {
    && (forall s :: s in a && !(lo <= s < hi) ==> s in b && b[s] == a[s])
    && (forall s :: s in b && !(lo <= s < hi) ==> s in a)
  }

  predicate EndsAgree(lo: nat, hi: nat, a: map<nat, nat>, b: map<nat, nat>) {
    forall s :: s in a && lo <= s < hi ==> s in b && b[s] == a[s]
  }

  lemma {:induction false} FnLinkedKept(code: Code, pos: nat, a: map<nat, nat>, b: map<nat, nat>)
    requires FnLinked(code, pos, a) && EndsAgree(pos, pos + |Emit(code)|, a, b)
    ensures FnLinked(code, pos, b)
    decreases code
  {
    hide EmitItem, FnLinkedItem;
    if code.Then? {
      FnLinkedItemKept(code.head, pos, a, b);
      FnLinkedKept(code.tail, pos + |EmitItem(code.head)|, a, b);
    }
  }

  lemma {:induction false} FnLinkedTestsKept(c: Construct, tests: Tests, pos: nat, a: map<nat, nat>, b: map<nat, nat>)
    requires FnLinkedTests(c, tests, pos, a) && EndsAgree(pos, pos + |EmitTests(c, tests)|, a, b)
    ensures FnLinkedTests(c, tests, pos, b)
    decreases tests
  {
    hide Emit, FnLinked;
    if tests.TestAt? {
      TestLayout([], c, tests, pos);
      FnLinkedKept(tests.pre, pos, a, b);
      FnLinkedTestsKept(c, tests.rest, TestPos(tests, pos) + 2, a, b);
    }
  }

  lemma {:induction false} FnLinkedItemKept(item: Item, pos: nat, a: map<nat, nat>, b: map<nat, nat>)
    requires FnLinkedItem(item, pos, a) && EndsAgree(pos, pos + |EmitItem(item)|, a, b)
    ensures FnLinkedItem(item, pos, b)
    decreases item
  {
    hide Emit, EmitTests, EmitItem, FnLinked, FnLinkedTests;
    match item
    case Branch(c, tests, body, _, other) =>
      BranchLayout([], item, pos);
      FnLinkedTestsKept(c, tests, pos + 1, a, b);
      FnLinkedKept(body, BodyPos(item, pos), a, b);
      FnLinkedKept(other, SkipPos(item, pos) + 3, a, b);
    case OrElse(tests, _, rhs, _, fill) =>
      OrLayout([], item, pos);
      FnLinkedTestsKept(OrC, tests, pos + 1, a, b);
      FnLinkedKept(rhs, FillJmpPos(item, pos) + 3, a, b);
      FnLinkedKept(fill, ContJmpPos(item, pos) + 3, a, b);
    case Fn(_, body, _) =>
      FnLayout([], item, pos);
      FnLinkedKept(body, pos + 3, a, b);
    case _ =>
  }

  // ----- scanning a program -----

  lemma {:induction false} FnScanCode(lines: seq<Line>, code: Code, pos: nat, st: FnScan)
    requires At(lines, pos, Emit(code))
    ensures var st' := FnScanRange(lines, pos, pos + |Emit(code)|, st);
            st'.open == st.open && EndsKept(pos, pos + |Emit(code)|, st.ends, st'.ends) && FnLinked(code, pos, st'.ends)
    decreases code
  {
    hide EmitItem, FnLinkedItem, FnScanLine;
    var end := pos + |Emit(code)|;
    if code.Empty? {
      assert FnScanRange(lines, pos, end, st) == st;
    } else {
      CodeLayout(lines, code, pos);
      var mid := pos + |EmitItem(code.head)|;
      FnScanItem(lines, code.head, pos, st);
      var st1 := FnScanRange(lines, pos, mid, st);
      FnScanCode(lines, code.tail, mid, st1);
      FnScanJoin(lines, pos, mid, end, st);
      FnLinkedItemKept(code.head, pos, st1.ends, FnScanRange(lines, mid, end, st1).ends);
    }
  }

  lemma {:induction false} FnScanTests(lines: seq<Line>, c: Construct, tests: Tests, pos: nat, st: FnScan)
    requires At(lines, pos, EmitTests(c, tests))
    ensures var end := pos + |EmitTests(c, tests)|;
            var st' := FnScanRange(lines, pos, end, st);
            st'.open == st.open && EndsKept(pos, end, st.ends, st'.ends) && FnLinkedTests(c, tests, pos, st'.ends)
    decreases tests
  {
    hide Emit, FnLinked, FnScanLine;
    var end := pos + |EmitTests(c, tests)|;
    if tests.NoTests? {
      assert FnScanRange(lines, pos, end, st) == st;
    } else {
      TestLayout(lines, c, tests, pos);
      var at := TestPos(tests, pos);
      FnScanCode(lines, tests.pre, pos, st);
      var st1 := FnScanRange(lines, pos, at, st);
      FnScanQuiet(lines, at, at + 2, st1);
      FnScanTests(lines, c, tests.rest, at + 2, st1);
      FnScanJoin(lines, pos, at, at + 2, st);
      FnScanJoin(lines, pos, at + 2, end, st);
      FnLinkedKept(tests.pre, pos, st1.ends, FnScanRange(lines, at + 2, end, st1).ends);
    }
  }

  lemma {:induction false} FnScanItem(lines: seq<Line>, item: Item, pos: nat, st: FnScan)
    requires At(lines, pos, EmitItem(item))
    ensures var end := pos + |EmitItem(item)|;
            var st' := FnScanRange(lines, pos, end, st);
            st'.open == st.open && EndsKept(pos, end, st.ends, st'.ends) && FnLinkedItem(item, pos, st'.ends)
    decreases item, 1
  {
    hide At, Emit, EmitTests, FnLinked, FnLinkedTests, FnScanRange;
    match item
    case Instr(w) => AtOne(lines, pos, Word(w)); FnScanQuiet(lines, pos, pos + 1, st);
    case Note(b) => AtOne(lines, pos, Comment(b)); FnScanQuiet(lines, pos, pos + 1, st);
    case Load(v, w) => AtTwo(lines, pos, Mark(Const(v)), Word(w)); FnScanQuiet(lines, pos, pos + 2, st);
    case Branch(_, _, _, _, _) => FnScanBranch(lines, item, pos, st);
    case OrElse(_, _, _, _, _) => FnScanOr(lines, item, pos, st);
    case Fn(_, _, _) => FnScanFn(lines, item, pos, st);
  }

  lemma {:induction false} FnScanBranch(lines: seq<Line>, item: Item, pos: nat, st: FnScan)
    requires item.Branch? && At(lines, pos, EmitItem(item))
    ensures var end := pos + |EmitItem(item)|;
            var st' := FnScanRange(lines, pos, end, st);
            st'.open == st.open && EndsKept(pos, end, st.ends, st'.ends) && FnLinkedItem(item, pos, st'.ends)
    decreases item, 0
  {
    hide At, Emit, EmitTests, EmitItem, FnLinked, FnLinkedTests, FnScanRange;
    BranchLayout(lines, item, pos);
    var body, skip, close := BodyPos(item, pos), SkipPos(item, pos), ClosePos(item, pos);
    FnScanQuiet(lines, pos, pos + 1, st);
    FnScanTests(lines, item.c, item.tests, pos + 1, st);
    var s1 := FnScanRange(lines, pos + 1, body, st);
    FnScanCode(lines, item.body, body, s1);
    var s2 := FnScanRange(lines, body, skip, s1);
    FnScanQuiet(lines, skip, skip + 3, s2);
    FnScanCode(lines, item.other, skip + 3, s2);
    var s3 := FnScanRange(lines, skip + 3, close, s2);
    FnScanQuiet(lines, close, close + 1, s3);
    FnScanJoin(lines, pos, pos + 1, body, st);
    FnScanJoin(lines, pos, body, skip, st);
    FnScanJoin(lines, pos, skip, skip + 3, st);
    FnScanJoin(lines, pos, skip + 3, close, st);
    FnScanJoin(lines, pos, close, close + 1, st);
    FnLinkedTestsKept(item.c, item.tests, pos + 1, s1.ends, s3.ends);
    FnLinkedKept(item.body, body, s2.ends, s3.ends);
  }

  lemma {:induction false} FnScanOr(lines: seq<Line>, item: Item, pos: nat, st: FnScan)
    requires item.OrElse? && At(lines, pos, EmitItem(item))
    ensures var end := pos + |EmitItem(item)|;
            var st' := FnScanRange(lines, pos, end, st);
            st'.open == st.open && EndsKept(pos, end, st.ends, st'.ends) && FnLinkedItem(item, pos, st'.ends)
    decreases item, 0
  {
    hide At, Emit, EmitTests, EmitItem, FnLinked, FnLinkedTests, FnScanRange;
    OrLayout(lines, item, pos);
    var skip, cont, close := FillJmpPos(item, pos), ContJmpPos(item, pos), OrClosePos(item, pos);
    FnScanQuiet(lines, pos, pos + 1, st);
    FnScanTests(lines, OrC, item.tests, pos + 1, st);
    var s1 := FnScanRange(lines, pos + 1, skip, st);
    FnScanQuiet(lines, skip, skip + 3, s1);
    FnScanCode(lines, item.rhs, skip + 3, s1);
    var s2 := FnScanRange(lines, skip + 3, cont, s1);
    FnScanQuiet(lines, cont, cont + 3, s2);
    FnScanCode(lines, item.fill, cont + 3, s2);
    var s3 := FnScanRange(lines, cont + 3, close, s2);
    FnScanQuiet(lines, close, close + 1, s3);
    FnScanJoin(lines, pos, pos + 1, skip, st);
    FnScanJoin(lines, pos, skip, skip + 3, st);
    FnScanJoin(lines, pos, skip + 3, cont, st);
    FnScanJoin(lines, pos, cont, cont + 3, st);
    FnScanJoin(lines, pos, cont + 3, close, st);
    FnScanJoin(lines, pos, close, close + 1, st);
    FnLinkedTestsKept(OrC, item.tests, pos + 1, s1.ends, s3.ends);
    FnLinkedKept(item.rhs, skip + 3, s2.ends, s3.ends);
  }

  lemma {:induction false} FnScanFn(lines: seq<Line>, item: Item, pos: nat, st: FnScan)
    requires item.Fn? && At(lines, pos, EmitItem(item))
    ensures var end := pos + |EmitItem(item)|;
            var st' := FnScanRange(lines, pos, end, st);
            st'.open == st.open && EndsKept(pos, end, st.ends, st'.ends) && FnLinkedItem(item, pos, st'.ends)
    decreases item, 0
  {
    hide At, Emit, EmitItem, FnLinked, FnScanRange;
    FnLayout(lines, item, pos);
    var end := EndPos(item, pos);
    FnScanQuiet(lines, pos, pos + 2, st);
    FnScanStep(lines, pos + 2, st);
    var s1 := FnScan(st.open + [pos + 2], st.ends);
    FnScanCode(lines, item.body, pos + 3, s1);
    var s2 := FnScanRange(lines, pos + 3, end, s1);
    FnScanStep(lines, end, s2);
    var s3 := FnScan(st.open, s2.ends[pos + 2 := end]);
    assert FnScanRange(lines, end, end + 1, s2) == s3 by { assert s2.open[..|s2.open| - 1] == st.open; }
    FnScanQuiet(lines, end + 1, end + 2, s3);
    FnScanJoin(lines, pos, pos + 2, pos + 3, st);
    FnScanJoin(lines, pos, pos + 3, end, st);
    FnScanJoin(lines, pos, end, end + 1, st);
    FnScanJoin(lines, pos, end + 1, end + 2, st);
    FnLinkedKept(item.body, pos + 3, s2.ends, s3.ends);
  }

  // ----- pairs are one to one, on any stream -----

  predicate OpenOk(lines: seq<Line>, i: nat, open: seq<nat>, ends: map<nat, nat>)
    requires i <= |lines|
  {
    && (forall k :: 0 <= k < |open| ==> open[k] < i && lines[open[k]] == Mark(FnStart) && open[k] !in ends)
    && (forall j, k :: 0 <= j < k < |open| ==> open[j] < open[k])
  }

  predicate EndsOk(lines: seq<Line>, i: nat, ends: map<nat, nat>)
    requires i <= |lines|
  {
    && (forall s :: s in ends ==> s < ends[s] < i && lines[s] == Mark(FnStart) && lines[ends[s]] == Mark(FnEnd))
    && (forall s, t :: s in ends && t in ends && ends[s] == ends[t] ==> s == t)
  }

  lemma {:induction false} OpenOkPop(lines: seq<Line>, i: nat, open: seq<nat>, ends: map<nat, nat>)
    requires i < |lines| && OpenOk(lines, i, open, ends) && open != []
    ensures OpenOk(lines, i + 1, open[..|open| - 1], ends[open[|open| - 1] := i])
  {
    var top := open[|open| - 1];
    forall k | 0 <= k < |open| - 1
      ensures open[k] != top
    {
    }
  }

  lemma {:induction false} EndsOkAdd(lines: seq<Line>, i: nat, ends: map<nat, nat>, s: nat)
    requires i < |lines| && EndsOk(lines, i, ends) && s < i && lines[s] == Mark(FnStart) && lines[i] == Mark(FnEnd)
    ensures EndsOk(lines, i + 1, ends[s := i])
  {
  }

  lemma {:induction false} FnOkGrows(lines: seq<Line>, i: nat, open: seq<nat>, ends: map<nat, nat>)
    requires i < |lines| && OpenOk(lines, i, open, ends) && EndsOk(lines, i, ends)
    ensures OpenOk(lines, i + 1, open, ends) && EndsOk(lines, i + 1, ends)
    ensures lines[i] == Mark(FnStart) ==> OpenOk(lines, i + 1, open + [i], ends)
    ensures open != [] ==> open[|open| - 1] < i && lines[open[|open| - 1]] == Mark(FnStart)
  {
  }

  lemma {:induction false} FnScanOk(lines: seq<Line>, i: nat)
    requires i <= |lines|
    ensures var st := FnScanRange(lines, 0, i, FnScan([], map[])); OpenOk(lines, i, st.open, st.ends) && EndsOk(lines, i, st.ends)
  {
    if i > 0 { FnScanOk(lines, i - 1); FnOkStep(lines, i - 1, FnScanRange(lines, 0, i - 1, FnScan([], map[]))); }
  }

  lemma {:induction false} FnOkStep(lines: seq<Line>, i: nat, st: FnScan)
    requires i < |lines| && OpenOk(lines, i, st.open, st.ends) && EndsOk(lines, i, st.ends)
    ensures var st' := FnScanLine(lines, i, st); OpenOk(lines, i + 1, st'.open, st'.ends) && EndsOk(lines, i + 1, st'.ends)
  {
    hide OpenOk, EndsOk;
    FnOkGrows(lines, i, st.open, st.ends);
    if lines[i] == Mark(FnEnd) && st.open != [] {
      OpenOkPop(lines, i, st.open, st.ends);
      EndsOkAdd(lines, i, st.ends, st.open[|st.open| - 1]);
    }
  }

  lemma {:induction false} EndsOneToOne(lines: seq<Line>, s: nat, t: nat)
    requires s in FnEnds(lines) && t in FnEnds(lines) && FnEnds(lines)[s] == FnEnds(lines)[t]
    ensures s == t
  {
    FnScanOk(lines, |lines|);
  }

  lemma {:induction false} EndsAreEnds(lines: seq<Line>, s: nat)
    requires s in FnEnds(lines)
    ensures s < FnEnds(lines)[s] < |lines| && lines[s] == Mark(FnStart) && lines[FnEnds(lines)[s]] == Mark(FnEnd)
  {
    FnScanOk(lines, |lines|);
  }
}
