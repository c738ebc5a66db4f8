/** The structured programs behind the marked hex stream, as
    bootstrap/compile_hex.nula emits them, and their resolution by structural
    recursion. */
module HexTree {
  import opened Bytecode
  import opened HexFixup

  datatype Code = Empty | Then(head: Item, tail: Code)

  /** The tests of a construct: code, then a conditional jump. */
  datatype Tests = NoTests | TestAt(pre: Code, w: nat, rest: Tests)

  datatype Item =
    | Instr(w: nat)
    | Note(mentionsConst: bool)
    | Load(value: Value, w: nat)
    | Branch(c: Construct, tests: Tests, body: Code, jmp: nat, other: Code)
    | OrElse(tests: Tests, skip: nat, rhs: Code, done: nat, fill: Code)
    | Fn(skip: nat, body: Code, closure: nat)

  predicate WellFormed(code: Code) {
    code.Empty? || (WellFormedItem(code.head) && WellFormed(code.tail))
  }

  predicate WellFormedTests(tests: Tests) {
    tests.NoTests? || (WellFormed(tests.pre) && WellFormedTests(tests.rest))
  }

  predicate WellFormedItem(item: Item) {
    match item
    case Load(_, w) => Opcode(w) == OP_CONSTU || Opcode(w) == OP_PERFORM
    case Branch(c, tests, body, _, other) => c != OrC && WellFormedTests(tests) && WellFormed(body) && WellFormed(other)
    case OrElse(tests, _, rhs, _, fill) => WellFormedTests(tests) && WellFormed(rhs) && WellFormed(fill)
    case Fn(_, body, closure) => WellFormed(body) && Opcode(closure) == OP_CLOSURE
    case _ => true
  }

  // ----- emission with placeholders -----

  function Emit(code: Code): seq<Line>
    decreases code
  {
    if code.Empty? then [] else EmitItem(code.head) + Emit(code.tail)
  }

  function EmitTests(c: Construct, tests: Tests): seq<Line>
    decreases tests
  {
    if tests.NoTests? then []
    else Emit(tests.pre) + [Mark(Test(c)), Word(tests.w)] + EmitTests(c, tests.rest)
  }

  function EmitItem(item: Item): seq<Line>
    decreases item
  {
    match item
    case Instr(w) => [Word(w)]
    case Note(b) => [Comment(b)]
    case Load(v, w) => [Mark(Const(v)), Word(w)]
    case Branch(c, tests, body, jmp, other) =>
      [Mark(Open(c))] + EmitTests(c, tests) + Emit(body) + [Mark(Skip(c)), Word(jmp), Mark(Mid(c))]
      + Emit(other) + [Mark(Close(c))]
    case OrElse(tests, skip, rhs, done, fill) =>
      [Mark(Open(OrC))] + EmitTests(OrC, tests) + [Mark(OrFillJmp), Word(skip), Mark(Mid(OrC))]
      + Emit(rhs) + [Mark(OrContJmp), Word(done), Mark(OrFill)] + Emit(fill) + [Mark(Close(OrC))]
    case Fn(skip, body, closure) =>
      [Mark(FnSkip), Word(skip), Mark(FnStart)] + Emit(body) + [Mark(FnEnd), Word(closure)]
  }

  // ----- sizes -----

  function Words(code: Code): nat {
    if code.Empty? then 0 else ItemWords(code.head) + Words(code.tail)
  }

  function TestWords(tests: Tests): nat {
    if tests.NoTests? then 0 else Words(tests.pre) + 1 + TestWords(tests.rest)
  }

  function ItemWords(item: Item): nat {
    match item
    case Instr(_) => 1
    case Note(_) => 0
    case Load(_, _) => 1
    case Branch(_, tests, body, _, other) => TestWords(tests) + Words(body) + 1 + Words(other)
    case OrElse(tests, _, rhs, _, fill) => TestWords(tests) + 1 + Words(rhs) + 1 + Words(fill)
    case Fn(_, body, _) => 1 + Words(body) + 1
  }

  function Fns(code: Code): nat {
    if code.Empty? then 0 else ItemFns(code.head) + Fns(code.tail)
  }

  function TestFns(tests: Tests): nat {
    if tests.NoTests? then 0 else Fns(tests.pre) + TestFns(tests.rest)
  }

  function ItemFns(item: Item): nat {
    match item
    case Branch(_, tests, body, _, other) => TestFns(tests) + Fns(body) + Fns(other)
    case OrElse(tests, _, rhs, _, fill) => TestFns(tests) + Fns(rhs) + Fns(fill)
    case Fn(_, body, _) => 1 + Fns(body)
    case _ => 0
  }

  // ----- resolution by structural recursion -----

  function PatchLoad(w: nat, idx: nat): nat {
    if Opcode(w) == OP_CONSTU then PatchConstU(w, idx) else PatchPerform(w, idx)
  }

  /** The stream with every jump, function and constant resolved, when its
      first instruction is number `ic` and its first function number `fn`. */
  function Resolve(code: Code, ic: nat, fn: nat, pool: seq<Value>): seq<Line>
    decreases code
  {
    if code.Empty? then []
    else ResolveItem(code.head, ic, fn, pool) + Resolve(code.tail, ic + ItemWords(code.head), fn + ItemFns(code.head), pool)
  }

  function ResolveTests(c: Construct, tests: Tests, ic: nat, fn: nat, alternative: nat, pool: seq<Value>): seq<Line>
    decreases tests
  {
    if tests.NoTests? then []
    else
      var at := ic + Words(tests.pre);
      Resolve(tests.pre, ic, fn, pool) + [Mark(Test(c)), Word(PatchJmpF(tests.w, alternative - at))]
      + ResolveTests(c, tests.rest, at + 1, fn + Fns(tests.pre), alternative, pool)
  }

  function ResolveItem(item: Item, ic: nat, fn: nat, pool: seq<Value>): seq<Line>
    decreases item
  {
    match item
    case Instr(w) => [Word(w)]
    case Note(b) => [Comment(b)]
    case Load(v, w) => [Mark(Const(v)), Word(if v in pool then PatchLoad(w, IndexIn(pool, v)) else w)]
    case Branch(c, tests, body, _, other) =>
      var at := ic + TestWords(tests) + Words(body);
      var fnBody := fn + TestFns(tests);
      [Mark(Open(c))] + ResolveTests(c, tests, ic, fn, at + 1, pool)
      + Resolve(body, ic + TestWords(tests), fnBody, pool)
      + [Mark(Skip(c)), Word(PatchJmp(at + 1 + Words(other) - at)), Mark(Mid(c))]
      + Resolve(other, at + 1, fnBody + Fns(body), pool) + [Mark(Close(c))]
    case OrElse(tests, _, rhs, _, fill) =>
      var at := ic + TestWords(tests);
      var doneAt := at + 1 + Words(rhs);
      var fnRhs := fn + TestFns(tests);
      [Mark(Open(OrC))] + ResolveTests(OrC, tests, ic, fn, at + 1, pool)
      + [Mark(OrFillJmp), Word(PatchJmp(doneAt + 1 - at)), Mark(Mid(OrC))]
      + Resolve(rhs, at + 1, fnRhs, pool)
      + [Mark(OrContJmp), Word(PatchJmp(doneAt + 1 + Words(fill) - doneAt)), Mark(OrFill)]
      + Resolve(fill, doneAt + 1, fnRhs + Fns(rhs), pool) + [Mark(Close(OrC))]
    case Fn(_, body, closure) =>
      [Mark(FnSkip), Word(PatchJmp(ic + 1 + Words(body) - ic)), Mark(FnStart)]
      + Resolve(body, ic + 1, fn + 1, pool)
      + [Mark(FnEnd), Word(PatchClosure(closure, fn))]
  }
}
