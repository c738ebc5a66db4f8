/** Continuation frames: where live variables go while a function is suspended
    (src/cir.rs, `compute_frame_layout`; the second half of `compute_live_vars`
    in src/cir_analysis.rs; the frame code of src/wasmfx_backend.rs). */
module Frames {
  import opened Options
  import opened Cir
  import opened Liveness
  import opened Ordered

  /** Reserved Wasm locals: dispatcher state, frame pointer, resume value. */
  const STATE_VAR: nat := 251
  const FRAME_PTR_VAR: nat := 252
  const RESULT_VAR: nat := 253

  const HEADER_SIZE: nat := 16

  // ----- frame layout -----

  datatype FrameLayout = FrameLayout(totalSize: nat, varOffsets: map<nat, nat>)

  method ComputeFrameLayout(live: seq<nat>) returns (layout: FrameLayout)
    ensures layout.totalSize == HEADER_SIZE + 8 * |live|
    ensures layout.varOffsets.Keys == SeqSet(live)
    ensures forall v :: v in layout.varOffsets ==>
              HEADER_SIZE <= layout.varOffsets[v] && layout.varOffsets[v] + 8 <= layout.totalSize
    ensures forall u, v :: u in layout.varOffsets && v in layout.varOffsets && u != v ==>
              !Overlap(layout.varOffsets[u], 8, layout.varOffsets[v], 8)
    ensures (forall i, j :: 0 <= i < j < |live| ==> live[i] != live[j]) ==>
              forall i :: 0 <= i < |live| ==> layout.varOffsets[live[i]] == HEADER_SIZE + 8 * i
  {
    var offsets: map<nat, nat> := map[];
    for i := 0 to |live|
      invariant offsets.Keys == SeqSet(live[..i])
      invariant forall v :: v in offsets ==>
                  exists j :: 0 <= j < i && live[j] == v && offsets[v] == HEADER_SIZE + 8 * j
      invariant (forall a, b :: 0 <= a < b < |live| ==> live[a] != live[b]) ==>
                  forall j :: 0 <= j < i ==> live[j] in offsets && offsets[live[j]] == HEADER_SIZE + 8 * j
    {
      assert live[..i + 1] == live[..i] + [live[i]];
      offsets := offsets[live[i] := HEADER_SIZE + 8 * i];
    }
    assert live[..|live|] == live;
    layout := FrameLayout(HEADER_SIZE + 8 * |live|, offsets);
  }

  function Offsets(n: nat): (offs: seq<nat>)
    ensures |offs| == n
  {
    seq(n, i => HEADER_SIZE + 8 * i)
  }

  // ----- frame insertion -----

  function SavedVars(term: CirTerminator, ins: seq<set<nat>>): (vs: seq<nat>)
    requires term.SuspendAndYield? && term.resumeBlock < |ins|
  {
    Sorted(set v | v in ins[term.resumeBlock] && v != term.resumeVar && v != FRAME_PTR_VAR && v != RESULT_VAR)
  }

  function SaveStmt(vs: seq<nat>): CirStmt { SaveFrame(vs, Offsets(|vs|), FRAME_PTR_VAR) }

  function ResumePrologue(vs: seq<nat>, dst: nat): seq<CirStmt> {
    [RestoreFrame(vs, Offsets(|vs|), FRAME_PTR_VAR), Assign(dst, Var(RESULT_VAR))]
  }

  predicate SuspendsTo(b: CirBlock, r: nat) {
    b.terminator.SuspendAndYield? && b.terminator.resumeBlock == r
  }

  function DirectTargets(term: CirTerminator): seq<nat> {
    if term.SuspendAndYield? then [] else Successors(term)
  }

  /** Each resume block has one incoming suspend and is entered no other way. */
  ghost predicate Disciplined(blocks: seq<CirBlock>, entry: nat) {
    && (forall i :: 0 <= i < |blocks| ==> !SuspendsTo(blocks[i], entry))
    && (forall i, j :: 0 <= i < |blocks| && 0 <= j < |blocks| && i != j && blocks[i].terminator.SuspendAndYield? ==>
          !SuspendsTo(blocks[j], blocks[i].terminator.resumeBlock))
    && (forall i, j, t :: 0 <= i < |blocks| && 0 <= j < |blocks| && t in DirectTargets(blocks[i].terminator) ==>
          !SuspendsTo(blocks[j], t))
  }

  ghost predicate InRange(blocks: seq<CirBlock>, ins: seq<set<nat>>) {
    && |ins| == |blocks|
    && forall i :: 0 <= i < |blocks| && blocks[i].terminator.SuspendAndYield? ==> blocks[i].terminator.resumeBlock < |ins|
  }

  lemma {:induction false} TargetsInRange(blocks: seq<CirBlock>, ins: seq<set<nat>>)
    requires ValidTargets(blocks) && |ins| == |blocks|
    ensures InRange(blocks, ins)
  {
    forall i | 0 <= i < |blocks| && blocks[i].terminator.SuspendAndYield? ensures blocks[i].terminator.resumeBlock < |ins| {
      assert blocks[i].terminator.resumeBlock in Successors(blocks[i].terminator);
    }
  }

  /** The statements run when block `b` is entered by a resume. */
  ghost function Pre(blocks: seq<CirBlock>, ins: seq<set<nat>>, b: nat): seq<CirStmt>
    requires InRange(blocks, ins)
  {
    if exists i :: 0 <= i < |blocks| && SuspendsTo(blocks[i], b) then
      var i :| 0 <= i < |blocks| && SuspendsTo(blocks[i], b);
      ResumePrologue(SavedVars(blocks[i].terminator, ins), blocks[i].terminator.resumeVar)
    else []
  }

  function Post(term: CirTerminator, ins: seq<set<nat>>): seq<CirStmt>
    requires term.SuspendAndYield? ==> term.resumeBlock < |ins|
  {
    if term.SuspendAndYield? then [SaveStmt(SavedVars(term, ins))] else []
  }

  function FramedTerm(term: CirTerminator, ins: seq<set<nat>>): CirTerminator
    requires term.SuspendAndYield? ==> term.resumeBlock < |ins|
  {
    if term.SuspendAndYield? then term.(liveVars := SavedVars(term, ins)) else term
  }

  ghost predicate FramedBlock(blocks: seq<CirBlock>, ins: seq<set<nat>>, b: nat, f: CirBlock)
    requires InRange(blocks, ins) && b < |blocks|
  {
    && f.id == blocks[b].id
    && f.stmts == Pre(blocks, ins, b) + blocks[b].stmts + Post(blocks[b].terminator, ins)
    && f.terminator == FramedTerm(blocks[b].terminator, ins)
  }

  /** `fb` is `blocks` with frames saved before each suspend and restored at each resume block. */
  ghost predicate Framed(blocks: seq<CirBlock>, ins: seq<set<nat>>, fb: seq<CirBlock>) {
    && InRange(blocks, ins)
    && |fb| == |blocks|
    && forall b :: 0 <= b < |blocks| ==> FramedBlock(blocks, ins, b, fb[b])
  }

  // ----- linear memory -----

  /** Cells of linear memory: address to (size, value).  A store destroys every cell it overlaps. */
  type Mem = map<int, (nat, Val)>

  predicate Overlap(a: int, k: nat, b: int, m: nat) { a < b + m && b < a + k }

  function MemStore(m: Mem, a: int, k: nat, v: Val): Mem {
    (map x | x in m && !Overlap(x, m[x].0, a, k) :: m[x])[a := (k, v)]
  }

  function MemLoad(m: Mem, a: int, k: nat): Val {
    if a in m && m[a].0 == k then m[a].1 else 0
  }

  /** The host leaves the frame alone and may rewrite the rest of memory. */
  function Preserve(m: Mem, frame: int, size: nat, other: Mem): Mem {
    (map x | x in other && !Overlap(x, other[x].0, frame, size) :: other[x]) +
    (map x | x in m && frame <= x && x + m[x].0 <= frame + size :: m[x])
  }

  predicate Holds(m: Mem, a: int, k: nat, v: Val) { a in m && m[a] == (k, v) }

  // ----- runs in which a suspend destroys all locals -----

  /** A host that also chooses frame addresses and what is left of locals and memory after a suspend. */
  datatype World = World(host: Host, alloc: Trace -> int, locals: Trace -> Store, memory: Trace -> Mem)

  function SaveSlots(vars: seq<nat>, offs: seq<nat>, base: int, locals: Store, m: Mem): Mem {
    if vars == [] || offs == [] then m
    else SaveSlots(vars[1..], offs[1..], base, locals, MemStore(m, base + offs[0], 8, Get(locals, vars[0])))
  }

  function RestoreSlots(vars: seq<nat>, offs: seq<nat>, fp: nat, locals: Store, m: Mem): Store {
    if vars == [] || offs == [] then locals
    else RestoreSlots(vars[1..], offs[1..], fp, locals[vars[0] := MemLoad(m, Get(locals, fp) + offs[0], 8)], m)
  }

  function ExecFramed(w: World, s: CirStmt, locals: Store, m: Mem, tr: Trace): (Store, Mem, Trace) {
    match s
    case SaveFrame(vars, offs, fp) =>
      var base := w.alloc(tr);
      (locals[fp := base], SaveSlots(vars, offs, base, locals[fp := base], m), tr)
    case RestoreFrame(vars, offs, fp) =>
      (RestoreSlots(vars, offs, fp, locals, m), m, tr)
    case _ =>
      var (locals1, tr1) := ExecStmt(w.host, s, locals, tr);
      (locals1, m, tr1)
  }

  /** Runs the rest of block `li`.  On a suspend the frame header is written,
      every local and all memory outside the frame are lost, and the dispatcher
      reads the resume block back from the header. */
  function FramedRun(fb: seq<CirBlock>, w: World, li: nat, stmts: seq<CirStmt>, term: CirTerminator,
                     locals: Store, m: Mem, tr: Trace, fuel: nat): (o: Outcome)
    decreases fuel, 1 + |stmts|
  {
    if stmts != [] then
      var (locals1, m1, tr1) := ExecFramed(w, stmts[0], locals, m, tr);
      FramedRun(fb, w, li, stmts[1..], term, locals1, m1, tr1, fuel)
    else
      match term
      case Return(None) => Finished(tr, TAG_UNIT)
      case Return(Some(e)) =>
        var (v, tr1) := EvalExpr(w.host, e, locals, tr);
        Finished(tr1, v)
      case Resume(e) =>
        var (v, tr1) := EvalExpr(w.host, e, locals, tr);
        Resumed(tr1, v)
      case Jump(t) => FramedEnter(fb, w, t, Dispatch(li, t, locals), m, tr, fuel)
      case Branch(c, t, f) =>
        var (v, tr1) := EvalExpr(w.host, c, locals, tr);
        var target := if v != TagBool(false) then t else f;
        FramedEnter(fb, w, target, Dispatch(li, target, locals), m, tr1, fuel)
      case SuspendAndYield(effect, args, r, _, live) =>
        var (vs, tr1) := EvalExprs(w.host, args, locals, tr);
        var tr2 := tr1 + [Suspended(effect, vs)];
        var (state, locals2, m2) := Resurrect(w, r, |live|, locals, m, tr2);
        FramedEnter(fb, w, state, locals2, m2, tr2, fuel)
  }

  /** A backward transfer goes through the dispatcher's state local. */
  function Dispatch(li: nat, t: nat, locals: Store): Store {
    if t > li then locals else locals[STATE_VAR := t]
  }

  function SuspendedMem(m: Mem, frame: int, r: nat, size: nat, other: Mem): Mem {
    Preserve(MemStore(MemStore(m, frame, 4, r), frame + 4, 4, size), frame, size, other)
  }

  /** Header write, loss of everything outside the frame, and the prologue of the resume function. */
  function Resurrect(w: World, r: nat, live: nat, locals: Store, m: Mem, tr: Trace): (int, Store, Mem) {
    var frame := Get(locals, FRAME_PTR_VAR);
    var m2 := SuspendedMem(m, frame, r, HEADER_SIZE + 8 * live, w.memory(tr));
    var state := MemLoad(m2, frame, 4);
    (state, w.locals(tr)[FRAME_PTR_VAR := frame][RESULT_VAR := w.host.reply(tr)][STATE_VAR := state], m2)
  }

  function FramedEnter(fb: seq<CirBlock>, w: World, t: int, locals: Store, m: Mem, tr: Trace, fuel: nat): (o: Outcome)
    decreases fuel, 0
  {
    if fuel == 0 then Cut(tr)
    else if t < 0 || t >= |fb| then Stuck(tr)
    else FramedRun(fb, w, t, fb[t].stmts, fb[t].terminator, locals, m, tr, fuel - 1)
  }

  // ----- a frame gives back what was saved -----

  lemma {:induction false} StoreKeeps(m: Mem, b: int, j: nat, x: Val, a: int, k: nat, v: Val)
    requires Holds(m, a, k, v) && k > 0 && j > 0 && !Overlap(a, k, b, j)
    ensures Holds(MemStore(m, b, j, x), a, k, v)
  {
  }

  lemma {:induction false} PreserveKeeps(m: Mem, frame: int, size: nat, other: Mem, a: int, k: nat, v: Val)
    requires Holds(m, a, k, v) && frame <= a && a + k <= frame + size
    ensures Holds(Preserve(m, frame, size, other), a, k, v)
  {
  }

  lemma {:induction false} SaveKeeps(vars: seq<nat>, offs: seq<nat>, base: int, locals: Store, m: Mem, a: int, k: nat, v: Val)
    requires Holds(m, a, k, v) && k > 0
    requires forall i :: 0 <= i < |offs| ==> !Overlap(a, k, base + offs[i], 8)
    ensures Holds(SaveSlots(vars, offs, base, locals, m), a, k, v)
  {
    if vars != [] && offs != [] {
      StoreKeeps(m, base + offs[0], 8, Get(locals, vars[0]), a, k, v);
      SaveKeeps(vars[1..], offs[1..], base, locals, MemStore(m, base + offs[0], 8, Get(locals, vars[0])), a, k, v);
    }
  }

  ghost predicate Spaced(offs: seq<nat>) {
    forall i, j :: 0 <= i < j < |offs| ==> offs[i] + 8 <= offs[j]
  }

  lemma {:induction false} SaveHolds(vars: seq<nat>, offs: seq<nat>, base: int, locals: Store, m: Mem)
    requires |vars| == |offs| && Spaced(offs)
    ensures forall i :: 0 <= i < |vars| ==>
              Holds(SaveSlots(vars, offs, base, locals, m), base + offs[i], 8, Get(locals, vars[i]))
  {
    if vars != [] {
      var m1 := MemStore(m, base + offs[0], 8, Get(locals, vars[0]));
      SaveHolds(vars[1..], offs[1..], base, locals, m1);
      SaveKeeps(vars[1..], offs[1..], base, locals, m1, base + offs[0], 8, Get(locals, vars[0]));
      forall i | 0 <= i < |vars|
        ensures Holds(SaveSlots(vars, offs, base, locals, m), base + offs[i], 8, Get(locals, vars[i]))
      {
        if i > 0 { assert vars[i] == vars[1..][i - 1] && offs[i] == offs[1..][i - 1]; }
      }
    }
  }

  lemma {:induction false} RestoreGives(vars: seq<nat>, offs: seq<nat>, fp: nat, locals: Store, m: Mem, src: Store)
    requires |vars| == |offs| && fp !in vars
    requires forall i :: 0 <= i < |vars| ==> Holds(m, Get(locals, fp) + offs[i], 8, Get(src, vars[i]))
    ensures var r := RestoreSlots(vars, offs, fp, locals, m);
            && (forall v :: v in vars ==> Get(r, v) == Get(src, v))
            && (forall v :: v !in vars ==> Get(r, v) == Get(locals, v))
  {
    if vars != [] {
      var locals1 := locals[vars[0] := MemLoad(m, Get(locals, fp) + offs[0], 8)];
      assert Get(locals1, vars[0]) == Get(src, vars[0]);
      assert forall i :: 0 <= i < |vars[1..]| ==> vars[1..][i] == vars[i + 1] && offs[1..][i] == offs[i + 1];
      RestoreGives(vars[1..], offs[1..], fp, locals1, m, src);
    }
  }

  /** A suspend writes the header and keeps every slot of the frame. */
  lemma {:induction false} HeaderSurvives(m: Mem, frame: int, r: nat, size: nat, other: Mem)
    requires size >= HEADER_SIZE
    ensures Holds(SuspendedMem(m, frame, r, size, other), frame, 4, r)
  {
    var h1 := MemStore(m, frame, 4, r);
    StoreKeeps(h1, frame + 4, 4, size, frame, 4, r);
    PreserveKeeps(MemStore(h1, frame + 4, 4, size), frame, size, other, frame, 4, r);
  }

  lemma {:induction false} SlotSurvives(m: Mem, frame: int, r: nat, size: nat, other: Mem, a: int, v: Val)
    requires Holds(m, a, 8, v) && frame + HEADER_SIZE <= a && a + 8 <= frame + size
    ensures Holds(SuspendedMem(m, frame, r, size, other), a, 8, v)
  {
    var h1 := MemStore(m, frame, 4, r);
    StoreKeeps(m, frame, 4, r, a, 8, v);
    StoreKeeps(h1, frame + 4, 4, size, a, 8, v);
    PreserveKeeps(MemStore(h1, frame + 4, 4, size), frame, size, other, a, 8, v);
  }

  ghost predicate SlotsHold(m: Mem, frame: int, vs: seq<nat>, src: Store) {
    forall i :: 0 <= i < |vs| ==> Holds(m, frame + (HEADER_SIZE + 8 * i), 8, Get(src, vs[i]))
  }

  lemma {:induction false} FrameSurvives(m: Mem, frame: int, vs: seq<nat>, src: Store, r: nat, other: Mem)
    requires SlotsHold(m, frame, vs, src)
    ensures SlotsHold(SuspendedMem(m, frame, r, HEADER_SIZE + 8 * |vs|, other), frame, vs, src)
  {
    forall i | 0 <= i < |vs|
      ensures Holds(SuspendedMem(m, frame, r, HEADER_SIZE + 8 * |vs|, other), frame + (HEADER_SIZE + 8 * i), 8, Get(src, vs[i]))
    {
      SlotSurvives(m, frame, r, HEADER_SIZE + 8 * |vs|, other, frame + (HEADER_SIZE + 8 * i), Get(src, vs[i]));
    }
  }

  lemma {:induction false} SaveFillsSlots(vs: seq<nat>, base: int, locals: Store, m: Mem)
    ensures SlotsHold(SaveSlots(vs, Offsets(|vs|), base, locals, m), base, vs, locals)
  {
    SaveHolds(vs, Offsets(|vs|), base, locals, m);
    forall i | 0 <= i < |vs|
      ensures Holds(SaveSlots(vs, Offsets(|vs|), base, locals, m), base + (HEADER_SIZE + 8 * i), 8, Get(locals, vs[i]))
    {
      assert Offsets(|vs|)[i] == HEADER_SIZE + 8 * i;
    }
  }

  lemma {:induction false} SlotsRestore(vs: seq<nat>, locals: Store, m: Mem, src: Store)
    requires FRAME_PTR_VAR !in vs && SlotsHold(m, Get(locals, FRAME_PTR_VAR), vs, src)
    ensures var r := RestoreSlots(vs, Offsets(|vs|), FRAME_PTR_VAR, locals, m);
            && (forall v :: v in vs ==> Get(r, v) == Get(src, v))
            && (forall v :: v !in vs ==> Get(r, v) == Get(locals, v))
  {
    forall i | 0 <= i < |vs| ensures Holds(m, Get(locals, FRAME_PTR_VAR) + Offsets(|vs|)[i], 8, Get(src, vs[i])) {
      assert Offsets(|vs|)[i] == HEADER_SIZE + 8 * i;
    }
    RestoreGives(vs, Offsets(|vs|), FRAME_PTR_VAR, locals, m, src);
  }

  /** Suspending with filled slots and restoring: the resume block is found, the saved
      variables have their old values, and the resume value is delivered. */
  lemma {:induction false} FrameRoundTrip(w: World, vs: seq<nat>, r: nat, locals: Store, m: Mem, tr: Trace)
    requires forall v :: v in vs ==> v < STATE_VAR
    requires SlotsHold(m, Get(locals, FRAME_PTR_VAR), vs, locals)
    ensures var (state, locals2, m2) := Resurrect(w, r, |vs|, locals, m, tr);
            var restored := RestoreSlots(vs, Offsets(|vs|), FRAME_PTR_VAR, locals2, m2);
            && state == r
            && (forall v :: v in vs ==> Get(restored, v) == Get(locals, v))
            && Get(restored, RESULT_VAR) == w.host.reply(tr)
  {
    var frame := Get(locals, FRAME_PTR_VAR);
    FrameSurvives(m, frame, vs, locals, r, w.memory(tr));
    HeaderSurvives(m, frame, r, HEADER_SIZE + 8 * |vs|, w.memory(tr));
    var (state, locals2, m2) := Resurrect(w, r, |vs|, locals, m, tr);
    assert Get(locals2, FRAME_PTR_VAR) == frame;
    SlotsRestore(vs, locals2, m2, locals);
  }
}
