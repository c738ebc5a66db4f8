/** The fragment of MIR that CIR lowering distinguishes (src/mir.rs), and its meaning.

    A MIR run records what each statement asks for, including what the lowered
    code no longer says (which behavior a message is for, which state field is
    written, whether a print ends the line).  `Erase` is the part of an event
    that survives lowering, and hosts answer on erased histories. */
module Mir {
  import opened Options
  import opened Cir

  const FUNC_IMPORT_COUNT: nat := 6
  const IMPORT_IO_PRINT: nat := 3
  const IMPORT_IO_READ: nat := 4

  datatype Constant =
    | IntConst(n: int) | FloatConst(f: real) | BoolConst(b: bool) | NilConst | UnitConst
    | StringConst(s: string) | OtherConst

  datatype MirBinOp =
    | BAdd | BSub | BMul | BDiv | BMod | BEq | BNe | BLt | BLe | BGt | BGe | BAnd | BOr
    | BBitAnd | BBitOr | BBitXor | BShl | BShr | BPow | BAssign | BRange | BPipe

  datatype MirUnOp = UNeg | UNot | UDeref | URef

  datatype RValue =
    | Const(c: Constant)
    | Load(src: nat)
    | Binary(bop: MirBinOp, a: nat, b: nat)
    | Unary(uop: MirUnOp, a: nat)
    | CallIndex(func: nat, args: seq<nat>)
    | ArrLen(arr: nat)
    | ArrLoad(arr: nat, idx: nat)
    | Perform(effect: string, op: string, args: seq<nat>)
    | PerformAsyncOp(effectOp: string, args: seq<nat>)
    | SignalWaitOp(name: string)
    | ReceiveMatch(behaviors: seq<nat>, maxParams: nat)
    | ReceiveWait(behaviors: seq<nat>, maxParams: nat, timeout: nat)
    | Send(actor: nat, behavior: nat, args: seq<nat>)
    | StateGet(field: string)
    | Unsupported(name: string, args: seq<nat>)

  datatype Stmt =
    | Set(dst: nat, op: RValue)
    | EmitEvent(event: string, args: seq<nat>)
    | StateSet(field: string, src: nat)
    | ParallelMarker
    | StoreField(obj: nat, field: string, src: nat)
    | ArrayStore(arr: nat, idx: nat, src: nat)
    | EnterHandle(table: nat)
    | PopHandler

  datatype Terminator =
    | Ret(local: Option<nat>)
    | Goto(target: nat)
    | CondGoto(cond: nat, thenId: nat, elseId: nat)
    | ResumeWith(value: nat)
    | Unterminated

  datatype Block = Block(id: nat, stmts: seq<Stmt>, terminator: Terminator)
  datatype Function = Function(params: seq<nat>, captures: seq<nat>, blocks: seq<Block>, entry: nat)

  datatype PerformKind = PrintOp | PrintlnOp | ReadOp | LengthOp | AskOp | OtherOp

  /** The built-in operations that lowering knows by name. */
  function KindOf(effect: string, op: string): PerformKind {
    if effect == "IO" && op == "print" then PrintOp
    else if effect == "IO" && op == "println" then PrintlnOp
    else if effect == "IO" && op == "read" then ReadOp
    else if effect == "Array" && op == "length" then LengthOp
    else if effect == "LLM" && op == "ask" then AskOp
    else OtherOp
  }

  /** Rvalues that suspend the computation. */
  predicate Suspends(op: RValue) {
    match op
    case Perform(effect, o, args) => KindOf(effect, o) == AskOp && args != []
    case SignalWaitOp(_) => true
    case ReceiveWait(_, _, _) => true
    case ReceiveMatch(_, _) => true
    case PerformAsyncOp(_, _) => true
    case _ => false
  }

  predicate SuspendsStmt(s: Stmt) { s.Set? && Suspends(s.op) }

  // ----- events -----

  datatype MirEvent =
    | FunctionCalled(func: nat, args: seq<Val>)
    | Printed(newline: bool, args: seq<Val>)
    | LineRead
    | MessageSent(actor: Val, behavior: nat, args: seq<Val>)
    | EventEmitted(event: string, args: seq<Val>)
    | StateWritten(field: string, value: Val)
    | LlmAsked(args: seq<Val>)
    | SignalAwaited(name: string)
    | MailboxAwaited(behaviors: seq<nat>, maxParams: nat, timeout: Option<Val>)
    | AsyncPerformed(effectOp: string, args: seq<Val>)

  function Erase(h: Host, e: MirEvent): Event {
    match e
    case FunctionCalled(f, args) => Called(FUNC_IMPORT_COUNT + f, args)
    case Printed(_, args) => Called(IMPORT_IO_PRINT, args)
    case LineRead => Called(IMPORT_IO_READ, [])
    case MessageSent(actor, _, args) => Emitted(ActorSend, [actor] + args)
    case EventEmitted(event, args) => Emitted(HostEffect("Event", event), args)
    case StateWritten(_, v) => Emitted(HostEffect("Actor", "state_set"), [v])
    case LlmAsked(args) => Suspended(LlmAsk, args)
    case SignalAwaited(name) => Suspended(SignalWait, [h.intern(name)])
    case MailboxAwaited(_, n, None) => Suspended(MailboxDequeue, [n])
    case MailboxAwaited(_, n, Some(t)) => Suspended(MailboxDequeue, [n, t])
    case AsyncPerformed(op, args) => Suspended(PerformAsync, [h.intern(op)] + args)
  }

  function EraseAll(h: Host, es: seq<MirEvent>): (tr: Trace)
    ensures |tr| == |es|
  {
    if es == [] then [] else EraseAll(h, es[..|es| - 1]) + [Erase(h, es[|es| - 1])]
  }

  // ----- runs -----

  /** A host for MIR: it also knows the payload of each received message. */
  datatype MirHost = MirHost(host: Host, payload: (Trace, nat) -> Val)

  datatype MirOutcome =
    | MFinished(events: seq<MirEvent>, result: Val)
    | MResumed(events: seq<MirEvent>, result: Val)
    | MStuck(events: seq<MirEvent>)
    | MCut(events: seq<MirEvent>)
    /** The run reached something the lowering does not support. */
    | MUnsupported(events: seq<MirEvent>)

  function GetAll(st: Store, ls: seq<nat>): (vs: seq<Val>)
    ensures |vs| == |ls|
  {
    seq(|ls|, i requires 0 <= i < |ls| => Get(st, ls[i]))
  }

  function OperatorOf(op: MirBinOp): Option<Operator> {
    match op
    case BAdd => Some(OAdd) case BSub => Some(OSub) case BMul => Some(OMul) case BDiv => Some(ODiv)
    case BMod => Some(OMod) case BEq => Some(OEq) case BNe => Some(ONe) case BLt => Some(OLt)
    case BLe => Some(OLe) case BGt => Some(OGt) case BGe => Some(OGe) case BAnd => Some(OAnd) case BOr => Some(OOr)
    case _ => None
  }

  function UnaryOperatorOf(op: MirUnOp): Option<Operator> {
    match op case UNeg => Some(ONeg) case UNot => Some(ONot) case _ => None
  }

  function ConstVal(h: Host, c: Constant): Option<Val> {
    match c
    case IntConst(n) => Some(TagInt(n))
    case FloatConst(f) => Some(h.floatBits(f))
    case BoolConst(b) => Some(TagBool(b))
    case NilConst => Some(TAG_NIL)
    case UnitConst => Some(TAG_UNIT)
    case StringConst(s) => Some(h.intern(s))
    case OtherConst => None
  }

  function Ask(h: Host, es: seq<MirEvent>, e: MirEvent): (Val, seq<MirEvent>) {
    (h.reply(EraseAll(h, es + [e])), es + [e])
  }

  /** The value of a non-suspending rvalue, with the events so far; `None` if unsupported. */
  function EvalRValue(h: Host, op: RValue, st: Store, es: seq<MirEvent>): Option<(Val, seq<MirEvent>)> {
    match op
    case Const(c) => if ConstVal(h, c).Some? then Some((ConstVal(h, c).value, es)) else None
    case Load(l) => Some((Get(st, l), es))
    case Binary(bop, a, b) =>
      if OperatorOf(bop).Some? then Some((h.apply(OperatorOf(bop).value, [Get(st, a), Get(st, b)]), es)) else None
    case Unary(uop, a) =>
      if UnaryOperatorOf(uop).Some? then Some((h.apply(UnaryOperatorOf(uop).value, [Get(st, a)]), es)) else None
    case CallIndex(f, args) => Some(Ask(h, es, FunctionCalled(f, GetAll(st, args))))
    case ArrLen(arr) => Some((h.arrayLen(EraseAll(h, es), Get(st, arr)), es))
    case ArrLoad(arr, idx) => Some((h.arrayLoad(EraseAll(h, es), Get(st, arr), Get(st, idx)), es))
    case Perform(effect, o, args) =>
      (match KindOf(effect, o)
       case PrintOp => Some(Ask(h, es, Printed(false, GetAll(st, args))))
       case PrintlnOp => Some(Ask(h, es, Printed(true, GetAll(st, args))))
       case ReadOp => Some(Ask(h, es, LineRead))
       case LengthOp => if args != [] then Some((h.arrayLen(EraseAll(h, es), Get(st, args[0])), es)) else None
       case _ => None)
    case _ => None
  }

  /** What a suspending rvalue asks of the host. */
  function SuspendEvent(op: RValue, st: Store): MirEvent
    requires Suspends(op)
  {
    match op
    case Perform(_, _, args) => LlmAsked(GetAll(st, args))
    case SignalWaitOp(name) => SignalAwaited(name)
    case ReceiveWait(bs, n, t) => MailboxAwaited(bs, n, Some(Get(st, t)))
    case ReceiveMatch(bs, n) => MailboxAwaited(bs, n, None)
    case PerformAsyncOp(o, args) => AsyncPerformed(o, GetAll(st, args))
  }

  function PayloadCount(op: RValue): nat {
    match op case ReceiveWait(_, n, _) => n case ReceiveMatch(_, n) => n case _ => 0
  }

  /** A receive writes its payload into the locals that follow its destination. */
  function WritePayload(mh: MirHost, tr: Trace, st: Store, dst: nat, n: nat): Store {
    if n == 0 then st else WritePayload(mh, tr, st, dst, n - 1)[dst + n := mh.payload(tr, n)]
  }

  /** One non-suspending statement; a send leaves its destination alone. */
  function ExecMir(h: Host, s: Stmt, st: Store, es: seq<MirEvent>): Option<(Store, seq<MirEvent>)> {
    match s
    case Set(dst, Send(actor, behavior, args)) =>
      Some((st, es + [MessageSent(Get(st, actor), behavior, GetAll(st, args))]))
    case Set(dst, op) =>
      (match EvalRValue(h, op, st, es)
       case None => None
       case Some((v, es1)) => Some((st[dst := v], es1)))
    case EmitEvent(event, args) => Some((st, es + [EventEmitted(event, GetAll(st, args))]))
    case StateSet(field, src) => Some((st, es + [StateWritten(field, Get(st, src))]))
    case ParallelMarker => Some((st, es))
    case _ => None
  }

  function BlockIndex(blocks: seq<Block>, id: nat): (i: nat)
    ensures i <= |blocks| && (i < |blocks| ==> blocks[i].id == id)
    ensures i == |blocks| ==> forall j :: 0 <= j < |blocks| ==> blocks[j].id != id
  {
    if blocks == [] then 0 else if blocks[0].id == id then 0 else 1 + BlockIndex(blocks[1..], id)
  }

  function RunMir(f: Function, mh: MirHost, stmts: seq<Stmt>, term: Terminator, st: Store, es: seq<MirEvent>, fuel: nat): (o: MirOutcome)
    decreases fuel, 1 + |stmts|
  {
    if stmts != [] then
      var s := stmts[0];
      if SuspendsStmt(s) then
        var es1 := es + [SuspendEvent(s.op, st)];
        var tr1 := EraseAll(mh.host, es1);
        if fuel == 0 then MCut(es1)
        else RunMir(f, mh, stmts[1..], term, WritePayload(mh, tr1, st[s.dst := mh.host.reply(tr1)], s.dst, PayloadCount(s.op)), es1, fuel - 1)
      else
        match ExecMir(mh.host, s, st, es)
        case None => MUnsupported(es)
        case Some((st1, es1)) => RunMir(f, mh, stmts[1..], term, st1, es1, fuel)
    else
      match term
      case Ret(None) => MFinished(es, TAG_UNIT)
      case Ret(Some(l)) => MFinished(es, Get(st, l))
      case ResumeWith(l) => MResumed(es, Get(st, l))
      case Goto(t) => EnterMir(f, mh, t, st, es, fuel)
      case CondGoto(c, t, e) => EnterMir(f, mh, if Get(st, c) != TagBool(false) then t else e, st, es, fuel)
      case Unterminated => MUnsupported(es)
  }

  function EnterMir(f: Function, mh: MirHost, id: nat, st: Store, es: seq<MirEvent>, fuel: nat): (o: MirOutcome)
    decreases fuel, 0
  {
    if fuel == 0 then MCut(es)
    else
      var i := BlockIndex(f.blocks, id);
      if i == |f.blocks| then MStuck(es)
      else RunMir(f, mh, f.blocks[i].stmts, f.blocks[i].terminator, st, es, fuel - 1)
  }

  // ----- locals read -----

  function SetOf(ls: seq<nat>): set<nat> { set l | l in ls }

  function RValueReads(op: RValue): set<nat> {
    match op
    case Load(l) => {l}
    case Binary(_, a, b) => {a, b}
    case Unary(_, a) => {a}
    case CallIndex(_, args) => SetOf(args)
    case ArrLen(arr) => {arr}
    case ArrLoad(arr, idx) => {arr, idx}
    case Perform(_, _, args) => SetOf(args)
    case PerformAsyncOp(_, args) => SetOf(args)
    case ReceiveWait(_, _, t) => {t}
    case Send(actor, _, args) => {actor} + SetOf(args)
    case Unsupported(_, args) => SetOf(args)
    case _ => {}
  }

  function StmtReads(s: Stmt): set<nat> {
    match s
    case Set(_, op) => RValueReads(op)
    case EmitEvent(_, args) => SetOf(args)
    case StateSet(_, src) => {src}
    case StoreField(obj, _, src) => {obj, src}
    case ArrayStore(arr, idx, src) => {arr, idx, src}
    case _ => {}
  }

  function TermReads(t: Terminator): set<nat> {
    match t
    case Ret(Some(l)) => {l}
    case CondGoto(c, _, _) => {c}
    case ResumeWith(l) => {l}
    case _ => {}
  }

  function TermTargets(t: Terminator): seq<nat> {
    match t
    case Goto(t) => [t]
    case CondGoto(_, t, e) => [t, e]
    case _ => []
  }
}
