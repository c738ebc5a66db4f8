/** Loading a back-patched stream (bootstrap/hex2nbc.py): instructions,
    function table and constant pool, and what the indices in the
    instructions select. */
module HexLoader {
  import opened Options
  import opened Bytecode
  import opened HexFixup
  import opened HexTree
  import opened HexExecution
  import opened HexRefinement
  import opened HexProgram
  import opened PoolText

  // ----- placing the pool comment -----

  datatype Printed = Plain(line: Line) | PoolLine(text: string)

  /** A comment whose text does not mention "const". */
  predicate PoolSpot(line: Line) {
    match line
    case Word(_) => false
    case Mark(m) => !m.Const?
    case Comment(mentionsConst) => !mentionsConst
  }

  function FirstSpot(lines: seq<Line>, n: nat): (k: Option<nat>)
    requires n <= |lines|
    ensures k.Some? ==> k.value < n && PoolSpot(lines[k.value])
    ensures k.None? ==> forall i :: 0 <= i < n ==> !PoolSpot(lines[i])
  {
    if n == 0 then None
    else
      var k := FirstSpot(lines, n - 1);
      if k.None? && PoolSpot(lines[n - 1]) then Some(n - 1) else k
  }

  /** What is printed for the first `n` lines. */
  function PrintedUpTo(lines: seq<Line>, out: seq<Line>, pool: seq<Value>, n: nat): seq<Printed>
    requires |lines| == |out| && n <= |lines|
  {
    if n == 0 then []
    else
      PrintedUpTo(lines, out, pool, n - 1) + [Plain(out[n - 1])]
      + (if pool != [] && FirstSpot(lines, n) == Some(n - 1) then [PoolLine(FormatLine(pool))] else [])
  }

  function WithPool(lines: seq<Line>, out: seq<Line>, pool: seq<Value>): seq<Printed>
    requires |lines| == |out|
  {
    PrintedUpTo(lines, out, pool, |lines|)
  }

  method PrintLines(lines: seq<Line>, out: seq<Line>, pool: seq<Value>) returns (text: seq<Printed>)
    requires |lines| == |out|
    ensures text == WithPool(lines, out, pool)
  {
    hide FormatLine;
    text := [];
    var inserted := false;
    for i := 0 to |lines|
      invariant inserted <==> pool != [] && FirstSpot(lines, i).Some?
      invariant text == PrintedUpTo(lines, out, pool, i)
    {
      text := text + [Plain(out[i])];
      if !inserted && pool != [] && PoolSpot(lines[i]) {
        text := text + [PoolLine(FormatLine(pool))];
        inserted := true;
      }
    }
  }

  // ----- loading -----

  datatype Module = Module(instructions: seq<nat>, functions: seq<nat>, pool: seq<Value>)

  const NO_MODULE := Module([], [0], [])

  function LoadLine(m: Module, p: Printed): Module {
    match p
    case PoolLine(text) => m.(pool := ParseLine(text))
    case Plain(Word(w)) => m.(instructions := m.instructions + [w])
    case Plain(Mark(FnStart)) => m.(functions := m.functions + [|m.instructions|])
    case _ => m
  }

  function LoadFrom(m: Module, text: seq<Printed>): Module {
    if text == [] then m else LoadLine(LoadFrom(m, text[..|text| - 1]), text[|text| - 1])
  }

  /** An empty instruction list is an error. */
  method Load(text: seq<Printed>) returns (r: Option<Module>)
    ensures r == if LoadFrom(NO_MODULE, text).instructions == [] then None else Some(LoadFrom(NO_MODULE, text))
  {
    var m := NO_MODULE;
    for i := 0 to |text|
      invariant m == LoadFrom(NO_MODULE, text[..i])
    {
      assert text[..i + 1][..i] == text[..i];
      m := LoadLine(m, text[i]);
    }
    assert text[..|text|] == text;
    return if m.instructions == [] then None else Some(m);
  }

  lemma {:induction false} LoadSnoc(m: Module, text: seq<Printed>, p: Printed)
    ensures LoadFrom(m, text + [p]) == LoadLine(LoadFrom(m, text), p)
  {
    hide LoadLine;
    assert (text + [p])[..|text|] == text;
  }

  /** Where the functions of a stream start, its first word being number `ic`. */
  function StartsOf(lines: seq<Line>, ic: nat): seq<nat> {
    if lines == [] then []
    else
      var front := lines[..|lines| - 1];
      StartsOf(front, ic) + (if lines[|lines| - 1] == Mark(FnStart) then [ic + |WordsOf(front)|] else [])
  }

  lemma {:induction false} StartsJoin(a: seq<Line>, b: seq<Line>, ic: nat)
    ensures StartsOf(a + b, ic) == StartsOf(a, ic) + StartsOf(b, ic + |WordsOf(a)|)
    decreases |b|
  {
    if b == [] {
      assert a + b == a;
    } else {
      var front := b[..|b| - 1];
      assert (a + b)[..|a + b| - 1] == a + front;
      StartsJoin(a, front, ic);
      WordsOfJoin(a, front);
    }
  }

  lemma {:induction false} LoadsOne(out: seq<Line>, n: nat, pool: seq<Value>)
    requires 0 < n <= |out|
    ensures LoadLine(Module(WordsOf(out[..n - 1]), [0] + StartsOf(out[..n - 1], 0), pool), Plain(out[n - 1])) ==
            Module(WordsOf(out[..n]), [0] + StartsOf(out[..n], 0), pool)
  {
    hide ParseLine;
    assert out[..n][..n - 1] == out[..n - 1];
    var words, starts := WordsOf(out[..n - 1]), StartsOf(out[..n - 1], 0);
    assert starts + [] == starts && words + [] == words;
    assert [0] + (starts + [|words|]) == ([0] + starts) + [|words|];
  }

  function PoolAfter(lines: seq<Line>, pool: seq<Value>, n: nat): seq<Value>
    requires n <= |lines|
  {
    if pool == [] || FirstSpot(lines, n).None? then [] else ParseLine(FormatLine(pool))
  }

  lemma {:induction false} LoadsUpTo(lines: seq<Line>, out: seq<Line>, pool: seq<Value>, n: nat)
    requires |lines| == |out| && n <= |lines|
    ensures LoadFrom(NO_MODULE, PrintedUpTo(lines, out, pool, n)) ==
            Module(WordsOf(out[..n]), [0] + StartsOf(out[..n], 0), PoolAfter(lines, pool, n))
  {
    hide WordsOf, StartsOf, ParseLine, FormatLine, LoadFrom;
    if n == 0 {
      NothingLoaded(out);
    } else {
      LoadsUpTo(lines, out, pool, n - 1);
      LoadsOne(out, n, PoolAfter(lines, pool, n - 1));
      var text := PrintedUpTo(lines, out, pool, n - 1);
      LoadSnoc(NO_MODULE, text, Plain(out[n - 1]));
      LoadSnoc(NO_MODULE, text + [Plain(out[n - 1])], PoolLine(FormatLine(pool)));
      assert (text + [Plain(out[n - 1])]) + [] == text + [Plain(out[n - 1])];
    }
  }

  lemma {:induction false} NothingLoaded(out: seq<Line>)
    ensures LoadFrom(NO_MODULE, []) == Module(WordsOf(out[..0]), [0] + StartsOf(out[..0], 0), [])
  {
    assert [0] + StartsOf(out[..0], 0) == [0];
  }

  /** The loaded module holds the printed words and starts, and the pool as
      its line parses, or no pool when there was no comment to put it after. */
  lemma {:induction false} LoadsPrinted(lines: seq<Line>, out: seq<Line>, pool: seq<Value>)
    requires |lines| == |out|
    ensures LoadFrom(NO_MODULE, WithPool(lines, out, pool)) ==
            Module(WordsOf(out), [0] + StartsOf(out, 0),
                   if pool == [] || FirstSpot(lines, |lines|).None? then [] else ParseLine(FormatLine(pool)))
  {
    hide WordsOf, StartsOf, ParseLine, FormatLine, LoadFrom;
    LoadsUpTo(lines, out, pool, |lines|);
    assert out[..|lines|] == out;
  }

  // ----- functions -----

  /** Where the function bodies of a program start, in order of appearance. */
  function Starts(code: Code, ic: nat): (r: seq<nat>)
    ensures |r| == Fns(code)
    decreases code
  {
    if code.Empty? then [] else ItemStarts(code.head, ic) + Starts(code.tail, ic + ItemWords(code.head))
  }

  function TestStarts(tests: Tests, ic: nat): (r: seq<nat>)
    ensures |r| == TestFns(tests)
    decreases tests
  {
    if tests.NoTests? then [] else Starts(tests.pre, ic) + TestStarts(tests.rest, ic + Words(tests.pre) + 1)
  }

  function ItemStarts(item: Item, ic: nat): (r: seq<nat>)
    ensures |r| == ItemFns(item)
    decreases item
  {
    match item
    case Branch(_, tests, body, _, other) =>
      var at := ic + TestWords(tests) + Words(body);
      TestStarts(tests, ic) + Starts(body, ic + TestWords(tests)) + Starts(other, at + 1)
    case OrElse(tests, _, rhs, _, fill) =>
      var at := ic + TestWords(tests);
      TestStarts(tests, ic) + Starts(rhs, at + 1) + Starts(fill, at + 1 + Words(rhs) + 1)
    case Fn(_, body, _) => [ic + 1] + Starts(body, ic + 1)
    case _ => []
  }

  /** The stretch has these function starts and this many words. */
  predicate Has(xs: seq<Line>, ic: nat, starts: seq<nat>, words: nat) {
    StartsOf(xs, ic) == starts && |WordsOf(xs)| == words
  }

  lemma {:induction false} HasJoin(a: seq<Line>, b: seq<Line>, ic: nat, sa: seq<nat>, na: nat, sb: seq<nat>, nb: nat)
    requires Has(a, ic, sa, na) && Has(b, ic + na, sb, nb)
    ensures Has(a + b, ic, sa + sb, na + nb)
  {
    hide StartsOf, WordsOf;
    StartsJoin(a, b, ic);
    WordsOfJoin(a, b);
  }

  lemma {:induction false} HasShort(a: Line, w: nat, c: Line, ic: nat)
    requires !a.Word? && a != Mark(FnStart) && !c.Word?
    ensures Has([a], ic, [], 0) && Has([a, Word(w)], ic, [], 1) && Has([], ic, [], 0) && Has([Word(w)], ic, [], 1)
    ensures Has([a, Word(w), c], ic, if c == Mark(FnStart) then [ic + 1] else [], 1)
  {
    WordsOfShort(a, Word(w), c);
    WordsOfShort(Word(w), a, a);
    WordsOfShort(c, a, a);
    assert [a][..0] == [] && [Word(w)][..0] == [] && [a, Word(w)][..1] == [a] && [a, Word(w), c][..2] == [a, Word(w)];
  }

  lemma {:induction false} CodeHas(code: Code, ic: nat, fn: nat, pool: seq<Value>)
    ensures Has(Resolve(code, ic, fn, pool), ic, Starts(code, ic), Words(code))
    decreases code
  {
    hide ResolveItem, Has, ItemStarts;
    if code.Empty? {
      HasShort(Comment(false), 0, Comment(false), ic);
    } else {
      var next, fn' := ic + ItemWords(code.head), fn + ItemFns(code.head);
      ItemHas(code.head, ic, fn, pool);
      CodeHas(code.tail, next, fn', pool);
      HasJoin(ResolveItem(code.head, ic, fn, pool), Resolve(code.tail, next, fn', pool), ic,
        ItemStarts(code.head, ic), ItemWords(code.head), Starts(code.tail, next), Words(code.tail));
    }
  }

  lemma {:induction false} TestsHave(c: Construct, tests: Tests, ic: nat, fn: nat, target: nat, pool: seq<Value>)
    ensures Has(ResolveTests(c, tests, ic, fn, target, pool), ic, TestStarts(tests, ic), TestWords(tests))
    decreases tests
  {
    hide Resolve, Has, Starts, PatchJmpF;
    if tests.NoTests? {
      HasShort(Comment(false), 0, Comment(false), ic);
    } else {
      var at, fn' := ic + Words(tests.pre), fn + Fns(tests.pre);
      var a, b := Resolve(tests.pre, ic, fn, pool), [Mark(Test(c)), Word(PatchJmpF(tests.w, target - at))];
      var d := ResolveTests(c, tests.rest, at + 1, fn', target, pool);
      CodeHas(tests.pre, ic, fn, pool);
      HasShort(Mark(Test(c)), PatchJmpF(tests.w, target - at), Comment(false), at);
      HasJoin(a, b, ic, Starts(tests.pre, ic), Words(tests.pre), [], 1);
      TestsHave(c, tests.rest, at + 1, fn', target, pool);
      assert Starts(tests.pre, ic) + [] == Starts(tests.pre, ic);
      HasJoin(a + b, d, ic, Starts(tests.pre, ic), Words(tests.pre) + 1, TestStarts(tests.rest, at + 1), TestWords(tests.rest));
    }
  }

  lemma {:induction false} ItemHas(item: Item, ic: nat, fn: nat, pool: seq<Value>)
    ensures Has(ResolveItem(item, ic, fn, pool), ic, ItemStarts(item, ic), ItemWords(item))
    decreases item, 1
  {
    hide Resolve, ResolveTests, Has, Starts, TestStarts;
    match item
    case Instr(w) => HasShort(Comment(false), w, Comment(false), ic);
    case Note(b) => HasShort(Comment(b), 0, Comment(false), ic);
    case Load(v, w) =>
      HasShort(Mark(Const(v)), if v in pool then PatchLoad(w, IndexIn(pool, v)) else w, Comment(false), ic);
    case Branch(_, _, _, _, _) => BranchHas(item, ic, fn, pool);
    case OrElse(_, _, _, _, _) => OrHas(item, ic, fn, pool);
    case Fn(_, body, closure) =>
      var p1 := [Mark(FnSkip), Word(PatchJmp(ic + 1 + Words(body) - ic)), Mark(FnStart)];
      var p2, p3 := Resolve(body, ic + 1, fn + 1, pool), [Mark(FnEnd), Word(PatchClosure(closure, fn))];
      HasShort(p1[0], p1[1].w, p1[2], ic);
      CodeHas(body, ic + 1, fn + 1, pool);
      HasJoin(p1, p2, ic, [ic + 1], 1, Starts(body, ic + 1), Words(body));
      HasShort(p3[0], p3[1].w, Comment(false), ic + 1 + Words(body));
      HasJoin(p1 + p2, p3, ic, [ic + 1] + Starts(body, ic + 1), 1 + Words(body), [], 1);
      assert [ic + 1] + Starts(body, ic + 1) + [] == ItemStarts(item, ic);
  }

  lemma {:induction false} BranchHas(item: Item, ic: nat, fn: nat, pool: seq<Value>)
    requires item.Branch?
    ensures Has(ResolveItem(item, ic, fn, pool), ic, ItemStarts(item, ic), ItemWords(item))
    decreases item, 0
  {
    hide Resolve, ResolveTests, Has, Starts, TestStarts, Words, TestWords, Fns, TestFns, PatchJmp;
    var Branch(c, tests, body, _, other) := item;
    var bodyAt, at, fnBody := ic + TestWords(tests), ic + TestWords(tests) + Words(body), fn + TestFns(tests);
    var p1, p2, p3 := [Mark(Open(c))], ResolveTests(c, tests, ic, fn, at + 1, pool), Resolve(body, bodyAt, fnBody, pool);
    var p4 := [Mark(Skip(c)), Word(PatchJmp(at + 1 + Words(other) - at)), Mark(Mid(c))];
    var p5, p6 := Resolve(other, at + 1, fnBody + Fns(body), pool), [Mark(Close(c))];
    var s2, s3, s5 := TestStarts(tests, ic), Starts(body, bodyAt), Starts(other, at + 1);
    HasShort(p1[0], 0, Comment(false), ic);
    TestsHave(c, tests, ic, fn, at + 1, pool);
    HasJoin(p1, p2, ic, [], 0, s2, TestWords(tests));
    CodeHas(body, bodyAt, fnBody, pool);
    assert [] + s2 == s2;
    HasJoin(p1 + p2, p3, ic, s2, TestWords(tests), s3, Words(body));
    HasShort(p4[0], p4[1].w, p4[2], at);
    HasJoin(p1 + p2 + p3, p4, ic, s2 + s3, TestWords(tests) + Words(body), [], 1);
    CodeHas(other, at + 1, fnBody + Fns(body), pool);
    assert s2 + s3 + [] == s2 + s3;
    HasJoin(p1 + p2 + p3 + p4, p5, ic, s2 + s3, TestWords(tests) + Words(body) + 1, s5, Words(other));
    HasShort(p6[0], 0, Comment(false), at + 1 + Words(other));
    HasJoin(p1 + p2 + p3 + p4 + p5, p6, ic, s2 + s3 + s5, TestWords(tests) + Words(body) + 1 + Words(other), [], 0);
    assert s2 + s3 + s5 + [] == s2 + s3 + s5;
    assert ResolveItem(item, ic, fn, pool) == p1 + p2 + p3 + p4 + p5 + p6;
  }

  lemma {:induction false} OrHas(item: Item, ic: nat, fn: nat, pool: seq<Value>)
    requires item.OrElse?
    ensures Has(ResolveItem(item, ic, fn, pool), ic, ItemStarts(item, ic), ItemWords(item))
    decreases item, 0
  {
    hide Resolve, ResolveTests, Has, Starts, TestStarts, Words, TestWords, Fns, TestFns, PatchJmp;
    var OrElse(tests, _, rhs, _, fill) := item;
    var at, fnRhs, tw := ic + TestWords(tests), fn + TestFns(tests), TestWords(tests);
    var doneAt := at + 1 + Words(rhs);
    var p1, p2 := [Mark(Open(OrC))], ResolveTests(OrC, tests, ic, fn, at + 1, pool);
    var p3, p4 := [Mark(OrFillJmp), Word(PatchJmp(doneAt + 1 - at)), Mark(Mid(OrC))], Resolve(rhs, at + 1, fnRhs, pool);
    var p5 := [Mark(OrContJmp), Word(PatchJmp(doneAt + 1 + Words(fill) - doneAt)), Mark(OrFill)];
    var p6, p7 := Resolve(fill, doneAt + 1, fnRhs + Fns(rhs), pool), [Mark(Close(OrC))];
    var s2, s4, s6 := TestStarts(tests, ic), Starts(rhs, at + 1), Starts(fill, doneAt + 1);
    HasShort(p1[0], 0, Comment(false), ic);
    TestsHave(OrC, tests, ic, fn, at + 1, pool);
    HasJoin(p1, p2, ic, [], 0, s2, tw);
    assert [] + s2 == s2;
    HasShort(p3[0], p3[1].w, p3[2], at);
    HasJoin(p1 + p2, p3, ic, s2, tw, [], 1);
    assert s2 + [] == s2;
    CodeHas(rhs, at + 1, fnRhs, pool);
    HasJoin(p1 + p2 + p3, p4, ic, s2, tw + 1, s4, Words(rhs));
    HasShort(p5[0], p5[1].w, p5[2], doneAt);
    HasJoin(p1 + p2 + p3 + p4, p5, ic, s2 + s4, tw + 1 + Words(rhs), [], 1);
    assert s2 + s4 + [] == s2 + s4;
    CodeHas(fill, doneAt + 1, fnRhs + Fns(rhs), pool);
    HasJoin(p1 + p2 + p3 + p4 + p5, p6, ic, s2 + s4, tw + 1 + Words(rhs) + 1, s6, Words(fill));
    HasShort(p7[0], 0, Comment(false), doneAt + 1 + Words(fill));
    HasJoin(p1 + p2 + p3 + p4 + p5 + p6, p7, ic, s2 + s4 + s6, tw + 1 + Words(rhs) + 1 + Words(fill), [], 0);
    assert s2 + s4 + s6 + [] == s2 + s4 + s6;
    assert ResolveItem(item, ic, fn, pool) == p1 + p2 + p3 + p4 + p5 + p6 + p7;
  }

  // ----- what indices select -----

  /** Every closure names the table entry of its own body, and every load the
      pool entry of its own constant, as long as the index fits in 16 bits. */
  predicate Indexed(code: Code, ic: nat, fn: nat, m: Module, pool: seq<Value>)
    decreases code
  {
    code.Then? ==>
      && IndexedItem(code.head, ic, fn, m, pool)
      && Indexed(code.tail, ic + ItemWords(code.head), fn + ItemFns(code.head), m, pool)
  }

  predicate IndexedTests(tests: Tests, ic: nat, fn: nat, m: Module, pool: seq<Value>)
    decreases tests
  {
    tests.TestAt? ==>
      && Indexed(tests.pre, ic, fn, m, pool)
      && IndexedTests(tests.rest, ic + Words(tests.pre) + 1, fn + Fns(tests.pre), m, pool)
  }

  predicate IndexedItem(item: Item, ic: nat, fn: nat, m: Module, pool: seq<Value>)
    decreases item
  {
    match item
    case Load(v, w) =>
      && v in pool && ic < |m.instructions|
      && var word := m.instructions[ic];
         Opcode(word) == Opcode(w) && Op3(word) == Op3(w) && (Imm16(word) == IndexIn(pool, v) <==> IndexIn(pool, v) < 0x10000)
    case Branch(_, tests, body, _, other) =>
      var at, fnBody := ic + TestWords(tests) + Words(body), fn + TestFns(tests);
      && IndexedTests(tests, ic, fn, m, pool) && Indexed(body, ic + TestWords(tests), fnBody, m, pool)
      && Indexed(other, at + 1, fnBody + Fns(body), m, pool)
    case OrElse(tests, _, rhs, _, fill) =>
      var at, fnRhs := ic + TestWords(tests), fn + TestFns(tests);
      && IndexedTests(tests, ic, fn, m, pool) && Indexed(rhs, at + 1, fnRhs, m, pool)
      && Indexed(fill, at + 1 + Words(rhs) + 1, fnRhs + Fns(rhs), m, pool)
    case Fn(_, body, closure) =>
      var at := ic + 1 + Words(body);
      && fn < |m.functions| && m.functions[fn] == ic + 1
      && at < |m.instructions|
      && (var word := m.instructions[at];
          Opcode(word) == OP_CLOSURE && Op3(word) == Op3(closure) && (Imm16(word) == fn <==> fn < 0x10000))
      && Indexed(body, ic + 1, fn + 1, m, pool)
    case _ => true
  }

  /** Constants of the program are in the pool. */
  predicate Pooled(xs: seq<Line>, pool: seq<Value>) {
    forall i :: 0 <= i < |xs| && xs[i].Mark? && xs[i].m.Const? ==> xs[i].m.value in pool
  }

  lemma {:induction false} PooledSplit(xs: seq<Line>, ys: seq<Line>, pool: seq<Value>)
    requires Pooled(xs + ys, pool)
    ensures Pooled(xs, pool) && Pooled(ys, pool)
  {
    var zs := xs + ys;
    forall i | 0 <= i < |xs| && xs[i].Mark? && xs[i].m.Const?
      ensures xs[i].m.value in pool
    {
      assert zs[i] == xs[i];
    }
    forall i | 0 <= i < |ys| && ys[i].Mark? && ys[i].m.Const?
      ensures ys[i].m.value in pool
    {
      assert zs[|xs| + i] == ys[i];
    }
  }

  /** The part of the module that a stretch of program occupies. */
  predicate Holds(m: Module, ic: nat, ws: seq<nat>, fn: nat, starts: seq<nat>) {
    Seg(m.instructions, ic, ws) && Seg(m.functions, fn, starts)
  }

  lemma {:induction false} HoldsSplit(m: Module, ic: nat, a: seq<nat>, b: seq<nat>, fn: nat, s: seq<nat>, t: seq<nat>)
    requires Holds(m, ic, a + b, fn, s + t)
    ensures Holds(m, ic, a, fn, s) && Holds(m, ic + |a|, b, fn + |s|, t)
  {
    hide Seg;
    SegSplit(m.instructions, ic, a, b);
    SegSplit(m.functions, fn, s, t);
  }

  lemma {:induction false} CodeIndexed(code: Code, ic: nat, fn: nat, m: Module, pool: seq<Value>)
    requires WellFormed(code) && Pooled(Emit(code), pool)
    requires Holds(m, ic, CodeWords(code, ic, fn, pool), fn, Starts(code, ic))
    ensures Indexed(code, ic, fn, m, pool)
    decreases code
  {
    hide Holds, Pooled, CodeWords, ItemWordsOf, ItemStarts, EmitItem, IndexedItem, WellFormedItem;
    if code.Then? {
      var next, fn' := ic + ItemWords(code.head), fn + ItemFns(code.head);
      PooledSplit(EmitItem(code.head), Emit(code.tail), pool);
      CodeWordsParts(code, ic, fn, pool);
      ItemWordsLength(code.head, ic, fn, pool);
      HoldsSplit(m, ic, ItemWordsOf(code.head, ic, fn, pool), CodeWords(code.tail, next, fn', pool), fn,
        ItemStarts(code.head, ic), Starts(code.tail, next));
      ItemIndexed(code.head, ic, fn, m, pool);
      CodeIndexed(code.tail, next, fn', m, pool);
    }
  }

  lemma {:induction false} TestsIndexed(c: Construct, tests: Tests, ic: nat, fn: nat, target: nat, m: Module, pool: seq<Value>)
    requires WellFormedTests(tests) && Pooled(EmitTests(c, tests), pool)
    requires Holds(m, ic, TestWordsOf(c, tests, ic, fn, target, pool), fn, TestStarts(tests, ic))
    ensures IndexedTests(tests, ic, fn, m, pool)
    decreases tests
  {
    hide Holds, Pooled, CodeWords, TestWordsOf, Starts, Emit, Indexed, WellFormed, PatchJmpF;
    if tests.TestAt? {
      var at, fn' := ic + Words(tests.pre), fn + Fns(tests.pre);
      var p1, p2 := Emit(tests.pre), [Mark(Test(c)), Word(tests.w)];
      PooledSplit(p1 + p2, EmitTests(c, tests.rest), pool);
      PooledSplit(p1, p2, pool);
      TestWordsParts(c, tests, ic, fn, target, pool);
      CodeWordsParts(tests.pre, ic, fn, pool);
      var a, j := CodeWords(tests.pre, ic, fn, pool), [PatchJmpF(tests.w, target - at)];
      var d := TestWordsOf(c, tests.rest, at + 1, fn', target, pool);
      var s, t := Starts(tests.pre, ic), TestStarts(tests.rest, at + 1);
      HoldsSplit(m, ic, a + j, d, fn, s, t);
      assert s + [] == s;
      HoldsSplit(m, ic, a, j, fn, s, []);
      CodeIndexed(tests.pre, ic, fn, m, pool);
      TestsIndexed(c, tests.rest, at + 1, fn', target, m, pool);
    }
  }

  lemma {:induction false} ItemIndexed(item: Item, ic: nat, fn: nat, m: Module, pool: seq<Value>)
    requires WellFormedItem(item) && Pooled(EmitItem(item), pool)
    requires Holds(m, ic, ItemWordsOf(item, ic, fn, pool), fn, ItemStarts(item, ic))
    ensures IndexedItem(item, ic, fn, m, pool)
    decreases item, 1
  {
    hide Holds, Pooled, ItemWordsOf, ItemStarts, EmitItem, Indexed, IndexedTests, WellFormed, WellFormedTests, Opcode, Imm16, Op3;
    match item
    case Branch(_, _, _, _, _) => BranchIndexed(item, ic, fn, m, pool);
    case OrElse(_, _, _, _, _) => OrIndexed(item, ic, fn, m, pool);
    case Fn(_, _, _) => FnIndexed(item, ic, fn, m, pool);
    case Load(_, _) => LoadIndexed(item, ic, fn, m, pool);
    case Instr(_) =>
    case Note(_) =>
  }

  lemma {:induction false} LoadIndexed(item: Item, ic: nat, fn: nat, m: Module, pool: seq<Value>)
    requires item.Load? && WellFormedItem(item) && Pooled(EmitItem(item), pool)
    requires Holds(m, ic, ItemWordsOf(item, ic, fn, pool), fn, ItemStarts(item, ic))
    ensures IndexedItem(item, ic, fn, m, pool)
  {
    hide Seg, WordsOf, Opcode, IndexIn, Imm16, Op3;
    var Load(v, w) := item;
    assert EmitItem(item)[0] == Mark(Const(v));
    var word := PatchLoad(w, IndexIn(pool, v));
    ThreeWords(Const(v), word, Const(v));
    SegOne(m.instructions, ic, word);
    IndexDecodes(Opcode(w), w, IndexIn(pool, v));
  }

  lemma {:induction false} FnIndexed(item: Item, ic: nat, fn: nat, m: Module, pool: seq<Value>)
    requires item.Fn? && WellFormedItem(item) && Pooled(EmitItem(item), pool)
    requires Holds(m, ic, ItemWordsOf(item, ic, fn, pool), fn, ItemStarts(item, ic))
    ensures IndexedItem(item, ic, fn, m, pool)
    decreases item, 0
  {
    hide Pooled, CodeWords, ItemWordsOf, Starts, Emit, Indexed, WellFormed, PatchJmp, Seg, Opcode, Imm16, Op3;
    var Fn(skip, body, closure) := item;
    var jump, close := PatchJmp(ic + 1 + Words(body) - ic), PatchClosure(closure, fn);
    var p1, p3 := [Mark(FnSkip), Word(skip), Mark(FnStart)], [Mark(FnEnd), Word(closure)];
    PooledSplit(p1 + Emit(body), p3, pool);
    PooledSplit(p1, Emit(body), pool);
    FnWords(item, ic, fn, pool);
    var ws, ss := CodeWords(body, ic + 1, fn + 1, pool), Starts(body, ic + 1);
    CodeWordsParts(body, ic + 1, fn + 1, pool);
    SegSplit(m.instructions, ic, [jump] + ws, [close]);
    SegSplit(m.instructions, ic, [jump], ws);
    SegOne(m.instructions, ic + 1 + Words(body), close);
    SegSplit(m.functions, fn, [ic + 1], ss);
    SegOne(m.functions, fn, ic + 1);
    IndexDecodes(OP_CLOSURE, closure, fn);
    CodeIndexed(body, ic + 1, fn + 1, m, pool);
  }

  lemma {:induction false} BranchIndexed(item: Item, ic: nat, fn: nat, m: Module, pool: seq<Value>)
    requires item.Branch? && WellFormedItem(item) && Pooled(EmitItem(item), pool)
    requires Holds(m, ic, ItemWordsOf(item, ic, fn, pool), fn, ItemStarts(item, ic))
    ensures IndexedItem(item, ic, fn, m, pool)
    decreases item, 0
  {
    hide Holds, Pooled, CodeWords, TestWordsOf, ItemWordsOf, Starts, TestStarts, Emit, EmitTests, Indexed, IndexedTests,
      WellFormed, WellFormedTests, PatchJmp, Words, TestWords, Fns, TestFns;
    var Branch(c, tests, body, jmp, other) := item;
    var bodyAt, at, fnBody := ic + TestWords(tests), ic + TestWords(tests) + Words(body), fn + TestFns(tests);
    var e1, e2, e3 := [Mark(Open(c))], EmitTests(c, tests), Emit(body);
    var e4, e5, e6 := [Mark(Skip(c)), Word(jmp), Mark(Mid(c))], Emit(other), [Mark(Close(c))];
    PooledSplit(e1 + e2 + e3 + e4 + e5, e6, pool);
    PooledSplit(e1 + e2 + e3 + e4, e5, pool);
    PooledSplit(e1 + e2 + e3, e4, pool);
    PooledSplit(e1 + e2, e3, pool);
    PooledSplit(e1, e2, pool);
    BranchWords(item, ic, fn, pool);
    var p1, p2, j := TestWordsOf(c, tests, ic, fn, at + 1, pool), CodeWords(body, bodyAt, fnBody, pool), [PatchJmp(at + 1 + Words(other) - at)];
    var p4 := CodeWords(other, at + 1, fnBody + Fns(body), pool);
    var s1, s2, s4 := TestStarts(tests, ic), Starts(body, bodyAt), Starts(other, at + 1);
    TestWordsParts(c, tests, ic, fn, at + 1, pool);
    CodeWordsParts(body, bodyAt, fnBody, pool);
    HoldsSplit(m, ic, p1 + p2 + j, p4, fn, s1 + s2, s4);
    assert (s1 + s2) + [] == s1 + s2;
    HoldsSplit(m, ic, p1 + p2, j, fn, s1 + s2, []);
    HoldsSplit(m, ic, p1, p2, fn, s1, s2);
    TestsIndexed(c, tests, ic, fn, at + 1, m, pool);
    CodeIndexed(body, bodyAt, fnBody, m, pool);
    CodeIndexed(other, at + 1, fnBody + Fns(body), m, pool);
  }

  lemma {:induction false} OrIndexed(item: Item, ic: nat, fn: nat, m: Module, pool: seq<Value>)
    requires item.OrElse? && WellFormedItem(item) && Pooled(EmitItem(item), pool)
    requires Holds(m, ic, ItemWordsOf(item, ic, fn, pool), fn, ItemStarts(item, ic))
    ensures IndexedItem(item, ic, fn, m, pool)
    decreases item, 0
  {
    hide Holds, Pooled, CodeWords, TestWordsOf, ItemWordsOf, Starts, TestStarts, Emit, EmitTests, Indexed, IndexedTests,
      WellFormed, WellFormedTests, PatchJmp, Words, TestWords, Fns, TestFns;
    var OrElse(tests, skip, rhs, done, fill) := item;
    var at, fnRhs := ic + TestWords(tests), fn + TestFns(tests);
    var doneAt := at + 1 + Words(rhs);
    var e1, e2 := [Mark(Open(OrC))], EmitTests(OrC, tests);
    var e3, e4 := [Mark(OrFillJmp), Word(skip), Mark(Mid(OrC))], Emit(rhs);
    var e5, e6, e7 := [Mark(OrContJmp), Word(done), Mark(OrFill)], Emit(fill), [Mark(Close(OrC))];
    PooledSplit(e1 + e2 + e3 + e4 + e5 + e6, e7, pool);
    PooledSplit(e1 + e2 + e3 + e4 + e5, e6, pool);
    PooledSplit(e1 + e2 + e3 + e4, e5, pool);
    PooledSplit(e1 + e2 + e3, e4, pool);
    PooledSplit(e1 + e2, e3, pool);
    PooledSplit(e1, e2, pool);
    OrWords(item, ic, fn, pool);
    var p1, j1 := TestWordsOf(OrC, tests, ic, fn, at + 1, pool), [PatchJmp(doneAt + 1 - at)];
    var p3, j2 := CodeWords(rhs, at + 1, fnRhs, pool), [PatchJmp(doneAt + 1 + Words(fill) - doneAt)];
    var p5 := CodeWords(fill, doneAt + 1, fnRhs + Fns(rhs), pool);
    var s1, s3, s5 := TestStarts(tests, ic), Starts(rhs, at + 1), Starts(fill, doneAt + 1);
    TestWordsParts(OrC, tests, ic, fn, at + 1, pool);
    CodeWordsParts(rhs, at + 1, fnRhs, pool);
    HoldsSplit(m, ic, p1 + j1 + p3 + j2, p5, fn, s1 + s3, s5);
    assert (s1 + s3) + [] == s1 + s3 && s1 + [] == s1;
    HoldsSplit(m, ic, p1 + j1 + p3, j2, fn, s1 + s3, []);
    HoldsSplit(m, ic, p1 + j1, p3, fn, s1, s3);
    HoldsSplit(m, ic, p1, j1, fn, s1, []);
    TestsIndexed(OrC, tests, ic, fn, at + 1, m, pool);
    CodeIndexed(rhs, at + 1, fnRhs, m, pool);
    CodeIndexed(fill, doneAt + 1, fnRhs + Fns(rhs), m, pool);
  }

  // ----- the whole pipeline -----

  function Compiled(code: Code, tail: seq<Line>): Module {
    var lines := Stream(code, tail);
    LoadFrom(NO_MODULE, WithPool(lines, Output(lines, AllPatches(lines)), Pool(lines)))
  }

  lemma {:induction false} TailStarts(tail: seq<Line>, ic: nat)
    requires forall i :: 0 <= i < |tail| ==> !tail[i].Mark?
    ensures StartsOf(tail, ic) == []
  {
    if tail != [] { TailStarts(tail[..|tail| - 1], ic); }
  }

  /** Emission, back-patching, printing and loading, end to end. */
  lemma {:induction false} CompiledModule(code: Code, tail: seq<Line>)
    requires WellFormed(code) && Epilogue(tail)
    ensures var m, pool := Compiled(code, tail), Pool(Stream(code, tail));
            && m.instructions == CodeWords(code, 0, 1, pool) + WordsOf(tail)
            && m.functions == [0] + Starts(code, 0)
            && Indexed(code, 0, 1, m, pool)
            && (m.pool == pool <==>
                CommaFree(pool) && (pool == [] || FirstSpot(Stream(code, tail), |Stream(code, tail)|).Some?))
  {
    hide Emit, Resolve, WellFormed, AllPatches, Output, Pool, WordsOf, StartsOf, Starts, Indexed, ParseLine, FormatLine;
    var lines, pool := Stream(code, tail), Pool(Stream(code, tail));
    FixupResolves(code, tail);
    var out := Output(lines, AllPatches(lines));
    LoadsPrinted(lines, out, pool);
    var resolved := Resolve(code, 0, 1, pool);
    WordsOfJoin(resolved, tail);
    StartsJoin(resolved, tail, 0);
    TailStarts(tail, |WordsOf(resolved)|);
    CodeHas(code, 0, 1, pool);
    assert Starts(code, 0) + [] == Starts(code, 0);
    PoolLineRoundTrip(pool);
    var m := Compiled(code, tail);
    assert m.functions[1..] == Starts(code, 0) && m.instructions[0..|CodeWords(code, 0, 1, pool)|] == CodeWords(code, 0, 1, pool);
    PoolHolds(lines);
    PooledSplit(Emit(code), tail, pool);
    CodeIndexed(code, 0, 1, m, pool);
  }

  /** The loaded instructions, run from the entry point, compute what the
      structured program computes and arrive at the epilogue. */
  lemma {:induction false} CompiledRuns<S>(code: Code, tail: seq<Line>, m: Machine<S>, s: S)
    requires WellFormed(code) && Straight(code) && Near(code) && Epilogue(tail)
    ensures Reaches(Compiled(code, tail).instructions, m, Config(0, s),
                    Config(Words(code), Exec(code, 1, Pool(Stream(code, tail)), m, s)))
  {
    hide Emit, Compiled, WellFormed, Straight, Near, Exec, Reaches, CodeWords, Indexed, Starts, Pool;
    CompiledModule(code, tail);
    var ws, pool := Compiled(code, tail).instructions, Pool(Stream(code, tail));
    var cw := CodeWords(code, 0, 1, pool);
    assert ws[0..|cw|] == cw;
    RunCode(ws, code, 0, 1, pool, m, s);
  }
}
