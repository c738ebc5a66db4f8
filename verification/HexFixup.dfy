/** The back-patching pass over marked hex lines (bootstrap/fixup_hex.py),
    after each line has been classified. */
module HexFixup {
  import opened Options
  import opened Bytecode

  datatype Construct = IfC | AndC | OrC

  datatype Value = IntValue(n: int) | StrValue(s: string)

  /** Per construct: its opening comment, a `JmpF` to its alternative, the
      `Jmp` over the alternative, the alternative and the end. `or` has two
      more jumps and a fill block; functions have a skip, a start and an end. */
  datatype Marker =
    | Open(c: Construct) | Test(c: Construct) | Skip(c: Construct) | Mid(c: Construct) | Close(c: Construct)
    | OrFillJmp | OrContJmp | OrFill
    | FnSkip | FnStart | FnEnd
    | Const(value: Value)

  datatype Line = Word(w: nat) | Mark(m: Marker) | Comment(mentionsConst: bool)

  // ----- instruction numbering -----

  function WordCount(lines: seq<Line>, i: nat): (n: nat)
    requires i <= |lines|
    ensures n <= i
  {
    if i == 0 then 0 else WordCount(lines, i - 1) + (if lines[i - 1].Word? then 1 else 0)
  }

  function NextWord(lines: seq<Line>, i: nat): (j: Option<nat>)
    ensures j.Some? ==> i <= j.value < |lines| && lines[j.value].Word?
    decreases |lines| - i
  {
    if i >= |lines| then None else if lines[i].Word? then Some(i) else NextWord(lines, i + 1)
  }

  function InstrAfter(lines: seq<Line>, i: nat): Option<nat> {
    match NextWord(lines, i + 1)
    case None => None
    case Some(j) => Some(WordCount(lines, j))
  }

  // ----- matching branches with one stack per construct -----

  datatype Frame = Frame(jmpfs: seq<nat>, jmp: Option<nat>, fillJmp: Option<nat>, contJmp: Option<nat>)

  const EMPTY_FRAME := Frame([], None, None, None)

  type Targets = map<nat, Option<nat>>

  datatype Scan = Scan(ifs: seq<Frame>, ands: seq<Frame>, ors: seq<Frame>, jmpfs: Targets, jmps: Targets)
  {
    function Stack(c: Construct): seq<Frame> {
      match c case IfC => ifs case AndC => ands case OrC => ors
    }

    function WithStack(c: Construct, stack: seq<Frame>): Scan {
      match c case IfC => this.(ifs := stack) case AndC => this.(ands := stack) case OrC => this.(ors := stack)
    }

    /** The top frame of a stack replaced; nothing happens on an empty stack. */
    function WithTop(c: Construct, f: Frame): Scan {
      var stack := Stack(c);
      if stack == [] then this else WithStack(c, stack[..|stack| - 1] + [f])
    }

    function Top(c: Construct): Frame {
      var stack := Stack(c);
      if stack == [] then EMPTY_FRAME else stack[|stack| - 1]
    }
  }

  const START := Scan([], [], [], map[], map[])

  function SetAll(targets: Targets, lines: seq<nat>, target: Option<nat>): Targets {
    targets + map l | l in lines :: target
  }

  function SetJump(targets: Targets, line: Option<nat>, target: Option<nat>): Targets {
    if line.Some? then targets[line.value := target] else targets
  }

  function ScanMarker(lines: seq<Line>, i: nat, m: Marker, st: Scan): Scan {
    match m
    case Open(c) => st.WithStack(c, st.Stack(c) + [EMPTY_FRAME])
    case Test(c) =>
      var w := NextWord(lines, i + 1);
      if w.Some? then st.WithTop(c, st.Top(c).(jmpfs := st.Top(c).jmpfs + [w.value])) else st
    case Skip(c) => st.WithTop(c, st.Top(c).(jmp := Some(i + 1)))
    case OrFillJmp => st.WithTop(OrC, st.Top(OrC).(fillJmp := Some(i + 1)))
    case OrContJmp => st.WithTop(OrC, st.Top(OrC).(contJmp := Some(i + 1)))
    case Mid(c) =>
      if st.Stack(c) == [] then st else st.(jmpfs := SetAll(st.jmpfs, st.Top(c).jmpfs, InstrAfter(lines, i)))
    case OrFill =>
      if st.ors == [] then st else st.(jmps := SetJump(st.jmps, st.Top(OrC).fillJmp, InstrAfter(lines, i)))
    case Close(c) =>
      var stack := st.Stack(c);
      if stack == [] then st
      else
        var after := InstrAfter(lines, i);
        st.WithStack(c, stack[..|stack| - 1])
          .(jmps := SetJump(SetJump(st.jmps, st.Top(c).contJmp, after), st.Top(c).jmp, after))
    case _ => st
  }

  function ScanLine(lines: seq<Line>, i: nat, st: Scan): Scan
    requires i < |lines|
  {
    if lines[i].Mark? then ScanMarker(lines, i, lines[i].m, st) else st
  }

  function ScanRange(lines: seq<Line>, i: nat, j: nat, st: Scan): Scan
    requires i <= j <= |lines|
    decreases j - i
  {
    if i == j then st else ScanLine(lines, j - 1, ScanRange(lines, i, j - 1, st))
  }

  method MatchBranches(lines: seq<Line>) returns (jmpfs: Targets, jmps: Targets)
    ensures jmpfs == ScanRange(lines, 0, |lines|, START).jmpfs
    ensures jmps == ScanRange(lines, 0, |lines|, START).jmps
  {
    var st := START;
    for i := 0 to |lines|
      invariant st == ScanRange(lines, 0, i, START)
    {
      st := ScanLine(lines, i, st);
    }
    return st.jmpfs, st.jmps;
  }

  // ----- matching functions -----

  datatype FnScan = FnScan(open: seq<nat>, ends: map<nat, nat>)

  function FnScanLine(lines: seq<Line>, i: nat, st: FnScan): FnScan
    requires i < |lines|
  {
    if lines[i] == Mark(FnStart) then st.(open := st.open + [i])
    else if lines[i] == Mark(FnEnd) && st.open != [] then
      FnScan(st.open[..|st.open| - 1], st.ends[st.open[|st.open| - 1] := i])
    else st
  }

  function FnScanRange(lines: seq<Line>, i: nat, j: nat, st: FnScan): FnScan
    requires i <= j <= |lines|
    decreases j - i
  {
    if i == j then st else FnScanLine(lines, j - 1, FnScanRange(lines, i, j - 1, st))
  }

  function FnEnds(lines: seq<Line>): map<nat, nat> { FnScanRange(lines, 0, |lines|, FnScan([], map[])).ends }

  method MatchFunctions(lines: seq<Line>) returns (ends: map<nat, nat>)
    ensures ends == FnEnds(lines)
  {
    var st := FnScan([], map[]);
    for i := 0 to |lines|
      invariant st == FnScanRange(lines, 0, i, FnScan([], map[]))
    {
      st := FnScanLine(lines, i, st);
    }
    return st.ends;
  }

  function FnCount(lines: seq<Line>, i: nat): nat
    requires i <= |lines|
  {
    if i == 0 then 0 else FnCount(lines, i - 1) + (if lines[i - 1] == Mark(FnStart) then 1 else 0)
  }

  function NextFnStart(lines: seq<Line>, i: nat): (j: Option<nat>)
    ensures j.Some? ==> i <= j.value < |lines|
    decreases |lines| - i
  {
    if i >= |lines| then None else if lines[i] == Mark(FnStart) then Some(i) else NextFnStart(lines, i + 1)
  }

  // ----- the constant pool -----

  function PoolOf(lines: seq<Line>, n: nat): (pool: seq<Value>)
    requires n <= |lines|
    ensures forall i, j :: 0 <= i < j < |pool| ==> pool[i] != pool[j]
  {
    if n == 0 then []
    else
      var pool := PoolOf(lines, n - 1);
      if lines[n - 1].Mark? && lines[n - 1].m.Const? && lines[n - 1].m.value !in pool
      then pool + [lines[n - 1].m.value] else pool
  }

  function IndexIn(pool: seq<Value>, v: Value): (i: nat)
    requires v in pool
    ensures i < |pool| && pool[i] == v
  {
    if pool[0] == v then 0 else 1 + IndexIn(pool[1..], v)
  }

  method BuildPool(lines: seq<Line>) returns (pool: seq<Value>)
    ensures pool == PoolOf(lines, |lines|)
  {
    var seen: set<Value> := {};
    pool := [];
    for i := 0 to |lines|
      invariant pool == PoolOf(lines, i)
      invariant forall v :: v in seen <==> v in pool
    {
      if lines[i].Mark? && lines[i].m.Const? {
        var entry := lines[i].m.value;
        if entry !in seen {
          seen := seen + {entry};
          pool := pool + [entry];
        }
      }
    }
  }

  lemma {:induction false} PoolGrows(lines: seq<Line>, i: nat, n: nat)
    requires i < n <= |lines| && lines[i].Mark? && lines[i].m.Const?
    ensures lines[i].m.value in PoolOf(lines, n)
    decreases n
  {
    if i < n - 1 { PoolGrows(lines, i, n - 1); }
  }

  // ----- patching -----

  type Patches = map<nat, nat>

  predicate IsJump(line: Line) {
    line.Mark? && (line.m.Skip? || line.m.OrFillJmp? || line.m.OrContJmp? || line.m.FnSkip?)
  }

  function PatchTest(lines: seq<Line>, jmpfs: Targets, i: nat, acc: Patches): Patches
    requires i < |lines|
  {
    if !(lines[i].Mark? && lines[i].m.Test?) then acc
    else
      match NextWord(lines, i + 1)
      case None => acc
      case Some(j) =>
        if j in jmpfs && jmpfs[j].Some? then
          acc[j := PatchJmpF(lines[j].w, jmpfs[j].value - WordCount(lines, j))]
        else acc
  }

  /** Where the jump on line `j` goes: the matched branch end; for a function
      skip the instruction after the matching end; otherwise past the last
      instruction. */
  function JumpTarget(lines: seq<Line>, jmps: Targets, ends: map<nat, nat>, j: nat): Option<nat>
    requires j < |lines|
  {
    if j in jmps then jmps[j]
    else if j > 0 && (lines[j - 1] == Mark(FnSkip) || lines[j - 1] == Mark(FnEnd)) then
      match NextFnStart(lines, j + 1)
      case None => Some(WordCount(lines, |lines|))
      case Some(s) => if s in ends then InstrAfter(lines, ends[s]) else Some(WordCount(lines, |lines|))
    else Some(WordCount(lines, |lines|))
  }

  function PatchJump(lines: seq<Line>, jmps: Targets, ends: map<nat, nat>, i: nat, acc: Patches): Patches
    requires i < |lines|
  {
    if !IsJump(lines[i]) then acc
    else
      match NextWord(lines, i + 1)
      case None => acc
      case Some(j) =>
        var target := JumpTarget(lines, jmps, ends, j);
        if target.Some? then acc[j := PatchJmp(target.value - WordCount(lines, j))] else acc
  }

  function PatchFn(lines: seq<Line>, ends: map<nat, nat>, i: nat, acc: Patches): Patches
    requires i < |lines|
  {
    if lines[i] != Mark(FnStart) || i !in ends then acc
    else
      match NextWord(lines, ends[i] + 1)
      case None => acc
      case Some(j) =>
        if Opcode(lines[j].w) == OP_CLOSURE then acc[j := PatchClosure(lines[j].w, FnCount(lines, i) + 1)] else acc
  }

  /** A constant marker must be followed by ConstU or Perform. */
  predicate ConstOk(lines: seq<Line>, i: nat)
    requires i < |lines|
  {
    lines[i].Mark? && lines[i].m.Const? ==>
      var j := NextWord(lines, i + 1);
      j.Some? ==> Opcode(lines[j.value].w) == OP_CONSTU || Opcode(lines[j.value].w) == OP_PERFORM
  }

  function PatchConst(lines: seq<Line>, pool: seq<Value>, i: nat, acc: Patches): Patches
    requires i < |lines|
    requires lines[i].Mark? && lines[i].m.Const? ==> lines[i].m.value in pool
  {
    if !(lines[i].Mark? && lines[i].m.Const?) then acc
    else
      match NextWord(lines, i + 1)
      case None => acc
      case Some(j) =>
        var idx := IndexIn(pool, lines[i].m.value);
        if Opcode(lines[j].w) == OP_CONSTU then acc[j := PatchConstU(lines[j].w, idx)]
        else if Opcode(lines[j].w) == OP_PERFORM then acc[j := PatchPerform(lines[j].w, idx)]
        else acc
  }

  function PatchTests(lines: seq<Line>, jmpfs: Targets, n: nat): Patches
    requires n <= |lines|
  {
    if n == 0 then map[] else PatchTest(lines, jmpfs, n - 1, PatchTests(lines, jmpfs, n - 1))
  }

  function PatchJumps(lines: seq<Line>, jmps: Targets, ends: map<nat, nat>, n: nat, acc: Patches): Patches
    requires n <= |lines|
  {
    if n == 0 then acc else PatchJump(lines, jmps, ends, n - 1, PatchJumps(lines, jmps, ends, n - 1, acc))
  }

  function PatchFns(lines: seq<Line>, ends: map<nat, nat>, n: nat, acc: Patches): Patches
    requires n <= |lines|
  {
    if n == 0 then acc else PatchFn(lines, ends, n - 1, PatchFns(lines, ends, n - 1, acc))
  }

  function PatchConsts(lines: seq<Line>, pool: seq<Value>, n: nat, acc: Patches): Patches
    requires n <= |lines| && forall i :: 0 <= i < n && lines[i].Mark? && lines[i].m.Const? ==> lines[i].m.value in pool
  {
    if n == 0 then acc else PatchConst(lines, pool, n - 1, PatchConsts(lines, pool, n - 1, acc))
  }

  function AllPatches(lines: seq<Line>): Patches {
    var st := ScanRange(lines, 0, |lines|, START);
    var ends := FnEnds(lines);
    forall i | 0 <= i < |lines| && lines[i].Mark? && lines[i].m.Const? ensures lines[i].m.value in PoolOf(lines, |lines|) {
      PoolGrows(lines, i, |lines|);
    }
    var tests := PatchTests(lines, st.jmpfs, |lines|);
    var jumps := PatchJumps(lines, st.jmps, ends, |lines|, tests);
    PatchConsts(lines, PoolOf(lines, |lines|), |lines|, PatchFns(lines, ends, |lines|, jumps))
  }

  function Output(lines: seq<Line>, patches: Patches): (out: seq<Line>)
    ensures |out| == |lines|
  {
    seq(|lines|, i requires 0 <= i < |lines| => if i in patches then Word(patches[i]) else lines[i])
  }

  method PatchBranches(lines: seq<Line>, jmpfs: Targets, jmps: Targets, ends: map<nat, nat>) returns (patched: Patches)
    ensures patched == PatchFns(lines, ends, |lines|, PatchJumps(lines, jmps, ends, |lines|, PatchTests(lines, jmpfs, |lines|)))
  {
    hide PatchTest, PatchJump, PatchFn;
    patched := map[];
    for i := 0 to |lines|
      invariant patched == PatchTests(lines, jmpfs, i)
    {
      patched := PatchTest(lines, jmpfs, i, patched);
    }
    ghost var tests := patched;
    for i := 0 to |lines|
      invariant patched == PatchJumps(lines, jmps, ends, i, tests)
    {
      patched := PatchJump(lines, jmps, ends, i, patched);
    }
    ghost var jumps := patched;
    for i := 0 to |lines|
      invariant patched == PatchFns(lines, ends, i, jumps)
    {
      patched := PatchFn(lines, ends, i, patched);
    }
  }

  method PatchPool(lines: seq<Line>, pool: seq<Value>, fns: Patches) returns (ok: bool, patched: Patches)
    requires forall i :: 0 <= i < |lines| && lines[i].Mark? && lines[i].m.Const? ==> lines[i].m.value in pool
    ensures ok <==> forall i :: 0 <= i < |lines| ==> ConstOk(lines, i)
    ensures ok ==> patched == PatchConsts(lines, pool, |lines|, fns)
  {
    hide PatchConst, ConstOk;
    patched := fns;
    for i := 0 to |lines|
      invariant forall k :: 0 <= k < i ==> ConstOk(lines, k)
      invariant patched == PatchConsts(lines, pool, i, fns)
    {
      if !ConstOk(lines, i) {
        return false, patched;
      }
      patched := PatchConst(lines, pool, i, patched);
    }
    return true, patched;
  }

  method Render(lines: seq<Line>, patches: Patches) returns (out: seq<Line>)
    ensures out == Output(lines, patches)
  {
    out := [];
    for i := 0 to |lines|
      invariant out == Output(lines, patches)[..i]
    {
      out := out + [if i in patches then Word(patches[i]) else lines[i]];
    }
  }

  datatype Fixed = Fixed(lines: seq<Line>, pool: seq<Value>) | AssertionFailed

  /** The whole pass, minus the placement of the pool comment. The passes run
      in the order of the source, so a later patch of a line wins. */
  method Fixup(lines: seq<Line>) returns (r: Fixed)
    ensures r == if forall i :: 0 <= i < |lines| ==> ConstOk(lines, i)
                 then Fixed(Output(lines, AllPatches(lines)), PoolOf(lines, |lines|)) else AssertionFailed
  {
    hide ConstOk, PatchTests, PatchJumps, PatchFns, PatchConsts, ScanRange, FnEnds, Output;
    var jmpfs, jmps := MatchBranches(lines);
    var ends := MatchFunctions(lines);
    var branches := PatchBranches(lines, jmpfs, jmps, ends);
    var pool := BuildPool(lines);
    forall i | 0 <= i < |lines| && lines[i].Mark? && lines[i].m.Const?
      ensures lines[i].m.value in pool
    {
      PoolGrows(lines, i, |lines|);
    }
    var ok, patched := PatchPool(lines, pool, branches);
    if !ok {
      return AssertionFailed;
    }
    var out := Render(lines, patched);
    return Fixed(out, pool);
  }
}
