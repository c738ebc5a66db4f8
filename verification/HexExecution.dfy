/** Running the back-patched words: the machine's jumps (src/vm.rs,
    src/bytecode.rs) take the paths of the structured program. */
module HexExecution {
  import opened Bytecode
  import opened HexFixup
  import opened HexTree

  // ----- the machine -----

  /** What an instruction other than a jump does, and when a conditional jump
      on a register is taken. */
  datatype Machine<!S> = Machine(effect: (nat, S) -> S, falsy: (nat, S) -> bool)

  datatype Config<S> = Config(pc: int, s: S)

  function Step<S>(ws: seq<nat>, m: Machine<S>, c: Config<S>): Config<S> {
    if !(0 <= c.pc < |ws|) then c
    else
      var w := ws[c.pc];
      if Opcode(w) == OP_JMP then c.(pc := c.pc + Signed16(Imm16(w)))
      else if Opcode(w) == OP_JMPF then
        if m.falsy(Op1(w), c.s) then c.(pc := c.pc + Offset16(w)) else c.(pc := c.pc + 1)
      else Config(c.pc + 1, m.effect(w, c.s))
  }

  function Run<S>(ws: seq<nat>, m: Machine<S>, c: Config<S>, n: nat): Config<S>
    decreases n
  {
    if n == 0 then c else Run(ws, m, Step(ws, m, c), n - 1)
  }

  lemma {:induction false} RunJoin<S>(ws: seq<nat>, m: Machine<S>, c: Config<S>, a: nat, b: nat)
    ensures Run(ws, m, c, a + b) == Run(ws, m, Run(ws, m, c, a), b)
    decreases a
  {
    hide Step;
    if a > 0 { RunJoin(ws, m, Step(ws, m, c), a - 1, b); }
  }

  ghost predicate Reaches<S>(ws: seq<nat>, m: Machine<S>, from: Config<S>, to: Config<S>) {
    exists n: nat :: Run(ws, m, from, n) == to
  }

  lemma {:induction false} ReachesJoin<S>(ws: seq<nat>, m: Machine<S>, a: Config<S>, b: Config<S>, c: Config<S>)
    requires Reaches(ws, m, a, b) && Reaches(ws, m, b, c)
    ensures Reaches(ws, m, a, c)
  {
    var i: nat :| Run(ws, m, a, i) == b;
    var j: nat :| Run(ws, m, b, j) == c;
    RunJoin(ws, m, a, i, j);
  }

  lemma {:induction false} ReachesStep<S>(ws: seq<nat>, m: Machine<S>, c: Config<S>)
    ensures Reaches(ws, m, c, c) && Reaches(ws, m, c, Step(ws, m, c))
  {
    hide Step;
    assert Run(ws, m, c, 0) == c;
    assert Run(ws, m, Step(ws, m, c), 0) == Step(ws, m, c);
    assert Run(ws, m, c, 1) == Step(ws, m, c);
  }

  // ----- the structured meaning -----

  /** Only the markers of the tree introduce jumps. */
  predicate Straight(code: Code) {
    code.Then? ==> StraightItem(code.head) && Straight(code.tail)
  }

  predicate StraightTests(tests: Tests) {
    tests.TestAt? ==> Straight(tests.pre) && StraightTests(tests.rest)
  }

  predicate StraightItem(item: Item) {
    match item
    case Instr(w) => Opcode(w) != OP_JMP && Opcode(w) != OP_JMPF
    case Note(_) => true
    case Load(_, w) => Opcode(w) == OP_CONSTU || Opcode(w) == OP_PERFORM
    case Branch(_, tests, body, _, other) => StraightTests(tests) && Straight(body) && Straight(other)
    case OrElse(tests, _, rhs, _, fill) => StraightTests(tests) && Straight(rhs) && Straight(fill)
    case Fn(_, _, _) => true
  }

  datatype Tested<S> = Tested(s: S, passed: bool)

  /** Sequencing, two-armed choice, short-circuit disjunction and closures,
      with no program counter. */
  function Exec<S>(code: Code, fn: nat, pool: seq<Value>, m: Machine<S>, s: S): S
    decreases code
  {
    if code.Empty? then s
    else Exec(code.tail, fn + ItemFns(code.head), pool, m, ExecItem(code.head, fn, pool, m, s))
  }

  /** Tests run until the first one that fails. */
  function ExecTests<S>(tests: Tests, fn: nat, pool: seq<Value>, m: Machine<S>, s: S): Tested<S>
    decreases tests
  {
    if tests.NoTests? then Tested(s, true)
    else
      var s1 := Exec(tests.pre, fn, pool, m, s);
      if m.falsy(Op1(tests.w), s1) then Tested(s1, false)
      else ExecTests(tests.rest, fn + Fns(tests.pre), pool, m, s1)
  }

  function ExecItem<S>(item: Item, fn: nat, pool: seq<Value>, m: Machine<S>, s: S): S
    decreases item
  {
    match item
    case Instr(w) => m.effect(w, s)
    case Note(_) => s
    case Load(v, w) => m.effect(if v in pool then PatchLoad(w, IndexIn(pool, v)) else w, s)
    case Branch(_, tests, body, _, other) =>
      var t := ExecTests(tests, fn, pool, m, s);
      var fnBody := fn + TestFns(tests);
      if t.passed then Exec(body, fnBody, pool, m, t.s) else Exec(other, fnBody + Fns(body), pool, m, t.s)
    case OrElse(tests, _, rhs, _, fill) =>
      var t := ExecTests(tests, fn, pool, m, s);
      var fnRhs := fn + TestFns(tests);
      if t.passed then Exec(fill, fnRhs + Fns(rhs), pool, m, t.s) else Exec(rhs, fnRhs, pool, m, t.s)
    case Fn(_, _, closure) => m.effect(PatchClosure(closure, fn), s)
  }

  // ----- the words of a resolved stream -----

  function WordsOf(xs: seq<Line>): seq<nat> {
    if xs == [] then [] else WordsOf(xs[..|xs| - 1]) + (if xs[|xs| - 1].Word? then [xs[|xs| - 1].w] else [])
  }

  lemma {:induction false} WordsOfJoin(xs: seq<Line>, ys: seq<Line>)
    ensures WordsOf(xs + ys) == WordsOf(xs) + WordsOf(ys)
    decreases |ys|
  {
    if ys == [] {
      assert xs + ys == xs;
    } else {
      assert (xs + ys)[..|xs + ys| - 1] == xs + ys[..|ys| - 1];
      WordsOfJoin(xs, ys[..|ys| - 1]);
    }
  }

  lemma {:induction false} WordsOfQuiet(xs: seq<Line>, ys: seq<Line>)
    ensures WordsOf(xs) == [] ==> WordsOf(xs + ys) == WordsOf(ys)
    ensures WordsOf(ys) == [] ==> WordsOf(xs + ys) == WordsOf(xs)
  {
    hide WordsOf;
    WordsOfJoin(xs, ys);
  }

  lemma {:induction false} WordsOfShort(a: Line, b: Line, c: Line)
    ensures WordsOf([]) == []
    ensures WordsOf([a]) == if a.Word? then [a.w] else []
    ensures WordsOf([a, b]) == WordsOf([a]) + WordsOf([b])
    ensures WordsOf([a, b, c]) == WordsOf([a]) + WordsOf([b]) + WordsOf([c])
  {
    assert [a][..0] == [] && [b][..0] == [] && [c][..0] == [];
    assert [a, b][..1] == [a] && [a, b, c][..2] == [a, b];
  }

  predicate Seg(ws: seq<nat>, i: nat, xs: seq<nat>) { i + |xs| <= |ws| && ws[i..i + |xs|] == xs }

  lemma {:induction false} SegSplit(ws: seq<nat>, i: nat, xs: seq<nat>, ys: seq<nat>)
    requires Seg(ws, i, xs + ys)
    ensures Seg(ws, i, xs) && Seg(ws, i + |xs|, ys) && i + |xs| + |ys| <= |ws|
  {
    assert ws[i..i + |xs|] == ws[i..i + |xs + ys|][..|xs|] == xs;
    assert ws[i + |xs|..i + |xs| + |ys|] == ws[i..i + |xs + ys|][|xs|..] == ys;
  }

  lemma {:induction false} SegOne(ws: seq<nat>, i: nat, w: nat)
    requires Seg(ws, i, [w])
    ensures i < |ws| && ws[i] == w
  {
    assert ws[i..i + 1] == [ws[i]];
  }

  function CodeWords(code: Code, ic: nat, fn: nat, pool: seq<Value>): seq<nat> { WordsOf(Resolve(code, ic, fn, pool)) }
  function ItemWordsOf(item: Item, ic: nat, fn: nat, pool: seq<Value>): seq<nat> { WordsOf(ResolveItem(item, ic, fn, pool)) }

  function TestWordsOf(c: Construct, tests: Tests, ic: nat, fn: nat, target: nat, pool: seq<Value>): seq<nat> {
    WordsOf(ResolveTests(c, tests, ic, fn, target, pool))
  }

  lemma {:induction false} CodeWordsParts(code: Code, ic: nat, fn: nat, pool: seq<Value>)
    ensures |CodeWords(code, ic, fn, pool)| == Words(code)
    ensures code.Then? ==>
              CodeWords(code, ic, fn, pool) ==
              ItemWordsOf(code.head, ic, fn, pool) + CodeWords(code.tail, ic + ItemWords(code.head), fn + ItemFns(code.head), pool)
    decreases code
  {
    hide ResolveItem;
    if code.Then? {
      ItemWordsLength(code.head, ic, fn, pool);
      CodeWordsParts(code.tail, ic + ItemWords(code.head), fn + ItemFns(code.head), pool);
      WordsOfJoin(ResolveItem(code.head, ic, fn, pool), Resolve(code.tail, ic + ItemWords(code.head), fn + ItemFns(code.head), pool));
    }
  }

  lemma {:induction false} TestWordsParts(c: Construct, tests: Tests, ic: nat, fn: nat, target: nat, pool: seq<Value>)
    ensures |TestWordsOf(c, tests, ic, fn, target, pool)| == TestWords(tests)
    ensures tests.TestAt? ==>
              var at := ic + Words(tests.pre);
              TestWordsOf(c, tests, ic, fn, target, pool) ==
              CodeWords(tests.pre, ic, fn, pool) + [PatchJmpF(tests.w, target - at)]
              + TestWordsOf(c, tests.rest, at + 1, fn + Fns(tests.pre), target, pool)
    decreases tests
  {
    hide Resolve, WordsOf, PatchJmpF;
    WordsOfShort(Word(0), Word(0), Word(0));
    if tests.TestAt? {
      var at := ic + Words(tests.pre);
      var a, b := Resolve(tests.pre, ic, fn, pool), [Mark(Test(c)), Word(PatchJmpF(tests.w, target - at))];
      var d := ResolveTests(c, tests.rest, at + 1, fn + Fns(tests.pre), target, pool);
      CodeWordsParts(tests.pre, ic, fn, pool);
      TestWordsParts(c, tests.rest, at + 1, fn + Fns(tests.pre), target, pool);
      WordsOfJoin(a, b);
      WordsOfJoin(a + b, d);
      ThreeWords(Test(c), PatchJmpF(tests.w, target - at), Test(c));
    }
  }

  lemma {:induction false} ThreeWords(a: Marker, w: nat, b: Marker)
    ensures WordsOf([Mark(a), Word(w), Mark(b)]) == [w] && WordsOf([Mark(a)]) == [] && WordsOf([Mark(a), Word(w)]) == [w]
  {
    WordsOfShort(Mark(a), Word(w), Mark(b));
    WordsOfShort(Word(w), Word(w), Word(w));
    WordsOfShort(Mark(b), Word(w), Word(w));
  }

  lemma {:induction false} BranchWords(item: Item, ic: nat, fn: nat, pool: seq<Value>)
    requires item.Branch?
    ensures var Branch(c, tests, body, _, other) := item;
            var at, fnBody := ic + TestWords(tests) + Words(body), fn + TestFns(tests);
            ItemWordsOf(item, ic, fn, pool) ==
            TestWordsOf(c, tests, ic, fn, at + 1, pool) + CodeWords(body, ic + TestWords(tests), fnBody, pool)
            + [PatchJmp(at + 1 + Words(other) - at)] + CodeWords(other, at + 1, fnBody + Fns(body), pool)
    ensures |ItemWordsOf(item, ic, fn, pool)| == ItemWords(item)
    decreases item, 0
  {
    hide Resolve, ResolveTests, WordsOf, Words, TestWords, Fns, TestFns, PatchJmp;
    var Branch(c, tests, body, _, other) := item;
    var at, fnBody := ic + TestWords(tests) + Words(body), fn + TestFns(tests);
    var p1, p2, p3 := [Mark(Open(c))], ResolveTests(c, tests, ic, fn, at + 1, pool), Resolve(body, ic + TestWords(tests), fnBody, pool);
    var p4 := [Mark(Skip(c)), Word(PatchJmp(at + 1 + Words(other) - at)), Mark(Mid(c))];
    var p5, p6 := Resolve(other, at + 1, fnBody + Fns(body), pool), [Mark(Close(c))];
    ThreeWords(Skip(c), PatchJmp(at + 1 + Words(other) - at), Mid(c));
    ThreeWords(Open(c), 0, Open(c));
    ThreeWords(Close(c), 0, Close(c));
    WordsOfQuiet(p1, p2);
    WordsOfJoin(p1 + p2, p3);
    WordsOfJoin(p1 + p2 + p3, p4);
    WordsOfJoin(p1 + p2 + p3 + p4, p5);
    WordsOfQuiet(p1 + p2 + p3 + p4 + p5, p6);
    assert ResolveItem(item, ic, fn, pool) == p1 + p2 + p3 + p4 + p5 + p6;
    TestWordsParts(c, tests, ic, fn, at + 1, pool);
    CodeWordsParts(body, ic + TestWords(tests), fnBody, pool);
    CodeWordsParts(other, at + 1, fnBody + Fns(body), pool);
  }

  lemma {:induction false} OrWords(item: Item, ic: nat, fn: nat, pool: seq<Value>)
    requires item.OrElse?
    ensures var OrElse(tests, _, rhs, _, fill) := item;
            var at, fnRhs := ic + TestWords(tests), fn + TestFns(tests);
            var doneAt := at + 1 + Words(rhs);
            ItemWordsOf(item, ic, fn, pool) ==
            TestWordsOf(OrC, tests, ic, fn, at + 1, pool) + [PatchJmp(doneAt + 1 - at)] + CodeWords(rhs, at + 1, fnRhs, pool)
            + [PatchJmp(doneAt + 1 + Words(fill) - doneAt)] + CodeWords(fill, doneAt + 1, fnRhs + Fns(rhs), pool)
    ensures |ItemWordsOf(item, ic, fn, pool)| == ItemWords(item)
    decreases item, 0
  {
    hide Resolve, ResolveTests, WordsOf, Words, TestWords, Fns, TestFns, PatchJmp;
    var OrElse(tests, _, rhs, _, fill) := item;
    var at, fnRhs := ic + TestWords(tests), fn + TestFns(tests);
    var doneAt := at + 1 + Words(rhs);
    var p1, p2 := [Mark(Open(OrC))], ResolveTests(OrC, tests, ic, fn, at + 1, pool);
    var p3, p4 := [Mark(OrFillJmp), Word(PatchJmp(doneAt + 1 - at)), Mark(Mid(OrC))], Resolve(rhs, at + 1, fnRhs, pool);
    var p5 := [Mark(OrContJmp), Word(PatchJmp(doneAt + 1 + Words(fill) - doneAt)), Mark(OrFill)];
    var p6, p7 := Resolve(fill, doneAt + 1, fnRhs + Fns(rhs), pool), [Mark(Close(OrC))];
    ThreeWords(OrFillJmp, PatchJmp(doneAt + 1 - at), Mid(OrC));
    ThreeWords(OrContJmp, PatchJmp(doneAt + 1 + Words(fill) - doneAt), OrFill);
    ThreeWords(Open(OrC), 0, Open(OrC));
    ThreeWords(Close(OrC), 0, Close(OrC));
    WordsOfQuiet(p1, p2);
    WordsOfJoin(p1 + p2, p3);
    WordsOfJoin(p1 + p2 + p3, p4);
    WordsOfJoin(p1 + p2 + p3 + p4, p5);
    WordsOfJoin(p1 + p2 + p3 + p4 + p5, p6);
    WordsOfQuiet(p1 + p2 + p3 + p4 + p5 + p6, p7);
    assert ResolveItem(item, ic, fn, pool) == p1 + p2 + p3 + p4 + p5 + p6 + p7;
    TestWordsParts(OrC, tests, ic, fn, at + 1, pool);
    CodeWordsParts(rhs, at + 1, fnRhs, pool);
    CodeWordsParts(fill, doneAt + 1, fnRhs + Fns(rhs), pool);
  }

  lemma {:induction false} FnWords(item: Item, ic: nat, fn: nat, pool: seq<Value>)
    requires item.Fn?
    ensures ItemWordsOf(item, ic, fn, pool) ==
            [PatchJmp(ic + 1 + Words(item.body) - ic)] + CodeWords(item.body, ic + 1, fn + 1, pool) + [PatchClosure(item.closure, fn)]
    ensures |ItemWordsOf(item, ic, fn, pool)| == ItemWords(item)
    decreases item, 0
  {
    hide Resolve, WordsOf;
    var Fn(_, body, closure) := item;
    var p1 := [Mark(FnSkip), Word(PatchJmp(ic + 1 + Words(body) - ic)), Mark(FnStart)];
    var p2, p3 := Resolve(body, ic + 1, fn + 1, pool), [Mark(FnEnd), Word(PatchClosure(closure, fn))];
    WordsOfJoin(p1, p2);
    WordsOfJoin(p1 + p2, p3);
    ThreeWords(FnSkip, PatchJmp(ic + 1 + Words(body) - ic), FnStart);
    ThreeWords(FnEnd, PatchClosure(closure, fn), FnEnd);
    CodeWordsParts(body, ic + 1, fn + 1, pool);
  }

  lemma {:induction false} ItemWordsLength(item: Item, ic: nat, fn: nat, pool: seq<Value>)
    ensures |ItemWordsOf(item, ic, fn, pool)| == ItemWords(item)
    decreases item, 1
  {
    hide Resolve, ResolveTests, WordsOf;
    match item
    case Branch(_, _, _, _, _) => BranchWords(item, ic, fn, pool);
    case OrElse(_, _, _, _, _) => OrWords(item, ic, fn, pool);
    case Fn(_, _, _) => FnWords(item, ic, fn, pool);
    case Instr(w) => WordsOfShort(Word(w), Word(w), Word(w));
    case Note(b) => WordsOfShort(Comment(b), Comment(b), Comment(b));
    case Load(v, w) => ThreeWords(Const(v), if v in pool then PatchLoad(w, IndexIn(pool, v)) else w, Const(v));
  }

  // ----- running a program -----

  const REACH: nat := 0x8000

  /** Every jump that is taken has an offset that fits in 16 signed bits. */
  predicate Near(code: Code) { code.Then? ==> NearItem(code.head) && Near(code.tail) }

  /** The tests jump `beyond` words past the last of them. */
  predicate NearTests(tests: Tests, beyond: nat) {
    tests.TestAt? ==> Near(tests.pre) && 1 + TestWords(tests.rest) + beyond < REACH && NearTests(tests.rest, beyond)
  }

  predicate NearItem(item: Item) {
    match item
    case Branch(_, tests, body, _, other) =>
      NearTests(tests, Words(body) + 1) && Near(body) && 1 + Words(other) < REACH && Near(other)
    case OrElse(tests, _, rhs, _, fill) =>
      NearTests(tests, 1) && 2 + Words(rhs) < REACH && Near(rhs) && 1 + Words(fill) < REACH && Near(fill)
    case Fn(_, body, _) => 1 + Words(body) < REACH
    case _ => true
  }

  lemma {:induction false} StepJmp<S>(ws: seq<nat>, m: Machine<S>, pc: nat, target: nat, s: S)
    requires pc < |ws| && pc <= target < pc + REACH && ws[pc] == PatchJmp(target - pc)
    ensures Reaches(ws, m, Config(pc, s), Config(target, s))
  {
    hide Imm16, Opcode, Reaches;
    JmpDecodes(target - pc);
    ReachesStep(ws, m, Config(pc, s));
  }

  lemma {:induction false} StepJmpF<S>(ws: seq<nat>, m: Machine<S>, pc: nat, w: nat, target: nat, s: S)
    requires pc < |ws| && pc <= target < pc + REACH && ws[pc] == PatchJmpF(w, target - pc)
    ensures Reaches(ws, m, Config(pc, s), Config(if m.falsy(Op1(w), s) then target else pc + 1, s))
  {
    hide Imm16, Opcode, Offset16, Op1, Reaches;
    JmpFDecodes(w, target - pc);
    ReachesStep(ws, m, Config(pc, s));
  }

  lemma {:induction false} StepEffect<S>(ws: seq<nat>, m: Machine<S>, pc: nat, s: S)
    requires pc < |ws| && Opcode(ws[pc]) != OP_JMP && Opcode(ws[pc]) != OP_JMPF
    ensures Reaches(ws, m, Config(pc, s), Config(pc + 1, m.effect(ws[pc], s)))
  {
    hide Imm16, Opcode, Reaches;
    ReachesStep(ws, m, Config(pc, s));
  }

  /** The words of a structured program, run from their first instruction,
      leave the machine just past their last one in the state the structured
      program computes. */
  lemma {:induction false} RunCode<S>(ws: seq<nat>, code: Code, ic: nat, fn: nat, pool: seq<Value>, m: Machine<S>, s: S)
    requires Near(code) && Straight(code) && Seg(ws, ic, CodeWords(code, ic, fn, pool))
    ensures Reaches(ws, m, Config(ic, s), Config(ic + Words(code), Exec(code, fn, pool, m, s)))
    decreases code
  {
    hide CodeWords, ItemWordsOf, ExecItem, Reaches, Seg, StraightItem, NearItem;
    CodeWordsParts(code, ic, fn, pool);
    if code.Empty? {
      ReachesStep(ws, m, Config(ic, s));
    } else {
      var mid, fn' := ic + ItemWords(code.head), fn + ItemFns(code.head);
      ItemWordsLength(code.head, ic, fn, pool);
      SegSplit(ws, ic, ItemWordsOf(code.head, ic, fn, pool), CodeWords(code.tail, mid, fn', pool));
      RunItem(ws, code.head, ic, fn, pool, m, s);
      var s1 := ExecItem(code.head, fn, pool, m, s);
      RunCode(ws, code.tail, mid, fn', pool, m, s1);
      ReachesJoin(ws, m, Config(ic, s), Config(mid, s1), Config(ic + Words(code), Exec(code, fn, pool, m, s)));
    }
  }

  lemma {:induction false} RunTests<S>(ws: seq<nat>, c: Construct, tests: Tests, ic: nat, fn: nat, target: nat, pool: seq<Value>, m: Machine<S>, s: S)
    requires StraightTests(tests) && Seg(ws, ic, TestWordsOf(c, tests, ic, fn, target, pool))
    requires ic + TestWords(tests) <= target && NearTests(tests, target - ic - TestWords(tests))
    ensures var t := ExecTests(tests, fn, pool, m, s);
            Reaches(ws, m, Config(ic, s), Config(if t.passed then ic + TestWords(tests) else target, t.s))
    decreases tests
  {
    hide CodeWords, TestWordsOf, Exec, Reaches, Seg, Straight, PatchJmpF, Op1, Near;
    TestWordsParts(c, tests, ic, fn, target, pool);
    if tests.NoTests? {
      ReachesStep(ws, m, Config(ic, s));
    } else {
      var at, fn' := ic + Words(tests.pre), fn + Fns(tests.pre);
      var jump := PatchJmpF(tests.w, target - at);
      var a, d := CodeWords(tests.pre, ic, fn, pool), TestWordsOf(c, tests.rest, at + 1, fn', target, pool);
      CodeWordsParts(tests.pre, ic, fn, pool);
      SegSplit(ws, ic, a + [jump], d);
      SegSplit(ws, ic, a, [jump]);
      SegOne(ws, at, jump);
      RunCode(ws, tests.pre, ic, fn, pool, m, s);
      var s1 := Exec(tests.pre, fn, pool, m, s);
      StepJmpF(ws, m, at, tests.w, target, s1);
      ReachesJoin(ws, m, Config(ic, s), Config(at, s1), Config(if m.falsy(Op1(tests.w), s1) then target else at + 1, s1));
      if !m.falsy(Op1(tests.w), s1) {
        RunTests(ws, c, tests.rest, at + 1, fn', target, pool, m, s1);
        var t := ExecTests(tests, fn, pool, m, s);
        ReachesJoin(ws, m, Config(ic, s), Config(at + 1, s1), Config(if t.passed then ic + TestWords(tests) else target, t.s));
      }
    }
  }

  lemma {:induction false} RunItem<S>(ws: seq<nat>, item: Item, ic: nat, fn: nat, pool: seq<Value>, m: Machine<S>, s: S)
    requires NearItem(item) && StraightItem(item) && Seg(ws, ic, ItemWordsOf(item, ic, fn, pool))
    ensures Reaches(ws, m, Config(ic, s), Config(ic + ItemWords(item), ExecItem(item, fn, pool, m, s)))
    decreases item, 1
  {
    hide Reaches, Seg, Exec, ExecTests, Straight, StraightTests, WordsOf, Resolve, ResolveTests, NearItem;
    match item
    case Branch(_, _, _, _, _) => RunBranch(ws, item, ic, fn, pool, m, s);
    case OrElse(_, _, _, _, _) => RunOr(ws, item, ic, fn, pool, m, s);
    case Fn(_, _, _) => RunFn(ws, item, ic, fn, pool, m, s);
    case Instr(w) =>
      WordsOfShort(Word(w), Word(w), Word(w));
      SegOne(ws, ic, w);
      StepEffect(ws, m, ic, s);
    case Note(b) =>
      ReachesStep(ws, m, Config(ic, s));
    case Load(v, w) => RunLoad(ws, item, ic, fn, pool, m, s);
  }

  lemma {:induction false} RunLoad<S>(ws: seq<nat>, item: Item, ic: nat, fn: nat, pool: seq<Value>, m: Machine<S>, s: S)
    requires item.Load? && StraightItem(item) && Seg(ws, ic, ItemWordsOf(item, ic, fn, pool))
    ensures Reaches(ws, m, Config(ic, s), Config(ic + 1, ExecItem(item, fn, pool, m, s)))
  {
    hide Reaches, Seg, WordsOf, Opcode, IndexIn;
    var Load(v, w) := item;
    var word := if v in pool then PatchLoad(w, IndexIn(pool, v)) else w;
    ThreeWords(Const(v), word, Const(v));
    SegOne(ws, ic, word);
    if v in pool { IndexDecodes(Opcode(w), w, IndexIn(pool, v)); }
    StepEffect(ws, m, ic, s);
  }

  lemma {:induction false} RunFn<S>(ws: seq<nat>, item: Item, ic: nat, fn: nat, pool: seq<Value>, m: Machine<S>, s: S)
    requires item.Fn? && NearItem(item) && Seg(ws, ic, ItemWordsOf(item, ic, fn, pool))
    ensures Reaches(ws, m, Config(ic, s), Config(ic + ItemWords(item), ExecItem(item, fn, pool, m, s)))
    decreases item, 0
  {
    hide Reaches, WordsOf, CodeWords, ItemWordsOf, Opcode, PatchJmp;
    var Fn(_, body, closure) := item;
    var end, jump := ic + 1 + Words(body), PatchJmp(ic + 1 + Words(body) - ic);
    FnWords(item, ic, fn, pool);
    CodeWordsParts(body, ic + 1, fn + 1, pool);
    SegSplit(ws, ic, [jump] + CodeWords(body, ic + 1, fn + 1, pool), [PatchClosure(closure, fn)]);
    SegSplit(ws, ic, [jump], CodeWords(body, ic + 1, fn + 1, pool));
    SegOne(ws, ic, jump);
    SegOne(ws, end, PatchClosure(closure, fn));
    StepJmp(ws, m, ic, end, s);
    IndexDecodes(OP_CLOSURE, closure, fn);
    StepEffect(ws, m, end, s);
    ReachesJoin(ws, m, Config(ic, s), Config(end, s), Config(end + 1, m.effect(PatchClosure(closure, fn), s)));
  }

  lemma {:induction false} RunBranch<S>(ws: seq<nat>, item: Item, ic: nat, fn: nat, pool: seq<Value>, m: Machine<S>, s: S)
    requires item.Branch? && NearItem(item) && StraightItem(item) && Seg(ws, ic, ItemWordsOf(item, ic, fn, pool))
    ensures Reaches(ws, m, Config(ic, s), Config(ic + ItemWords(item), ExecItem(item, fn, pool, m, s)))
    decreases item, 0
  {
    hide Reaches, CodeWords, ItemWordsOf, TestWordsOf, Exec, ExecTests, Straight, StraightTests, PatchJmp, Seg, Words, TestWords, Fns, TestFns,
      Near, NearTests;
    var Branch(c, tests, body, _, other) := item;
    var bodyAt, at, fnBody := ic + TestWords(tests), ic + TestWords(tests) + Words(body), fn + TestFns(tests);
    var end, jump := at + 1 + Words(other), PatchJmp(at + 1 + Words(other) - at);
    BranchWords(item, ic, fn, pool);
    var p1, p2 := TestWordsOf(c, tests, ic, fn, at + 1, pool), CodeWords(body, bodyAt, fnBody, pool);
    var p4 := CodeWords(other, at + 1, fnBody + Fns(body), pool);
    TestWordsParts(c, tests, ic, fn, at + 1, pool);
    CodeWordsParts(body, bodyAt, fnBody, pool);
    CodeWordsParts(other, at + 1, fnBody + Fns(body), pool);
    SegSplit(ws, ic, p1 + p2 + [jump], p4);
    SegSplit(ws, ic, p1 + p2, [jump]);
    SegSplit(ws, ic, p1, p2);
    SegOne(ws, at, jump);
    RunTests(ws, c, tests, ic, fn, at + 1, pool, m, s);
    var t := ExecTests(tests, fn, pool, m, s);
    if t.passed {
      var s2 := Exec(body, fnBody, pool, m, t.s);
      RunCode(ws, body, bodyAt, fnBody, pool, m, t.s);
      ReachesJoin(ws, m, Config(ic, s), Config(bodyAt, t.s), Config(at, s2));
      StepJmp(ws, m, at, end, s2);
      ReachesJoin(ws, m, Config(ic, s), Config(at, s2), Config(end, s2));
    } else {
      var s2 := Exec(other, fnBody + Fns(body), pool, m, t.s);
      RunCode(ws, other, at + 1, fnBody + Fns(body), pool, m, t.s);
      ReachesJoin(ws, m, Config(ic, s), Config(at + 1, t.s), Config(end, s2));
    }
  }

  lemma {:induction false} RunOr<S>(ws: seq<nat>, item: Item, ic: nat, fn: nat, pool: seq<Value>, m: Machine<S>, s: S)
    requires item.OrElse? && NearItem(item) && StraightItem(item) && Seg(ws, ic, ItemWordsOf(item, ic, fn, pool))
    ensures Reaches(ws, m, Config(ic, s), Config(ic + ItemWords(item), ExecItem(item, fn, pool, m, s)))
    decreases item, 0
  {
    hide Reaches, CodeWords, ItemWordsOf, TestWordsOf, Exec, ExecTests, Straight, StraightTests, PatchJmp, Seg, Words, TestWords, Fns, TestFns,
      Near, NearTests;
    var OrElse(tests, _, rhs, _, fill) := item;
    var at, fnRhs := ic + TestWords(tests), fn + TestFns(tests);
    var doneAt := at + 1 + Words(rhs);
    var end := doneAt + 1 + Words(fill);
    var j1, j2 := PatchJmp(doneAt + 1 - at), PatchJmp(doneAt + 1 + Words(fill) - doneAt);
    OrWords(item, ic, fn, pool);
    var p1, p3 := TestWordsOf(OrC, tests, ic, fn, at + 1, pool), CodeWords(rhs, at + 1, fnRhs, pool);
    var p5 := CodeWords(fill, doneAt + 1, fnRhs + Fns(rhs), pool);
    TestWordsParts(OrC, tests, ic, fn, at + 1, pool);
    CodeWordsParts(rhs, at + 1, fnRhs, pool);
    CodeWordsParts(fill, doneAt + 1, fnRhs + Fns(rhs), pool);
    SegSplit(ws, ic, p1 + [j1] + p3 + [j2], p5);
    SegSplit(ws, ic, p1 + [j1] + p3, [j2]);
    SegSplit(ws, ic, p1 + [j1], p3);
    SegSplit(ws, ic, p1, [j1]);
    SegOne(ws, at, j1);
    SegOne(ws, doneAt, j2);
    RunTests(ws, OrC, tests, ic, fn, at + 1, pool, m, s);
    var t := ExecTests(tests, fn, pool, m, s);
    if t.passed {
      var s2 := Exec(fill, fnRhs + Fns(rhs), pool, m, t.s);
      StepJmp(ws, m, at, doneAt + 1, t.s);
      ReachesJoin(ws, m, Config(ic, s), Config(at, t.s), Config(doneAt + 1, t.s));
      RunCode(ws, fill, doneAt + 1, fnRhs + Fns(rhs), pool, m, t.s);
      ReachesJoin(ws, m, Config(ic, s), Config(doneAt + 1, t.s), Config(end, s2));
    } else {
      var s2 := Exec(rhs, fnRhs, pool, m, t.s);
      RunCode(ws, rhs, at + 1, fnRhs, pool, m, t.s);
      ReachesJoin(ws, m, Config(ic, s), Config(at + 1, t.s), Config(doneAt, s2));
      StepJmp(ws, m, doneAt, end, s2);
      ReachesJoin(ws, m, Config(ic, s), Config(doneAt, s2), Config(end, s2));
    }
  }
}
