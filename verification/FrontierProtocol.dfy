/** The acknowledged synchronisation protocol as a state machine: one sender,
    any number of receivers, and a network that loses, repeats and reorders
    batches and acknowledgements (src/runtime/distributed.rs,
    src/runtime/distribution.rs, src/crdt_peer_sync.rs). */
module FrontierProtocol {
  import opened Crdt
  import opened Ordered
  import opened Frontiers

  datatype Message = Message(peer: nat, batch: Batch)
  datatype Ack = Ack(peer: nat, batchId: nat)

  /** Everything ever sent stays in `sent` and `acks`: delivering an element
      again models duplication, never delivering it models loss. Peers in
      `untracked` are reached over a transport without packet tracking, peers
      in `unmanaged` run without a replica manager, and `lost` records the
      peers that lost their replicas since the sender last forgot them. */
  datatype System = System(
    local: State, table: Table, replicas: map<nat, State>, sent: set<Message>, acks: set<Ack>,
    untracked: set<nat>, unmanaged: set<nat>, lost: set<nat>)

  datatype Step =
    | LocalUpdate(state: State)
    | ReplicaUpdate(peer: nat, state: State)
    | Sync(peer: nat)
    | Deliver(message: Message)
    | AckArrives(ack: Ack)
    | Crash(peer: nat)
    | Forget(peer: nat)

  function Replica(sys: System, peer: nat): State {
    if peer in sys.replicas then sys.replicas[peer] else map[]
  }

  predicate Initial(sys: System) {
    && sys.table.nextBatchId == 1 && sys.table.peers == map[] && sys.table.maxPending >= 1
    && sys.local == map[] && sys.replicas == map[] && sys.sent == {} && sys.acks == {} && sys.lost == {}
  }

  /** Acknowledgements from this peer mean what they say. */
  predicate Trusted(sys: System, p: nat) { p !in sys.untracked && p !in sys.unmanaged && p !in sys.lost }

  /** Local and remote updates only ever grow a replica, and an id names one
      kind of replica everywhere; `Sync` stops at the batch-id panic. */
  predicate Enabled(kinds: nat -> Kind, sys: System, step: Step) {
    match step
    case LocalUpdate(s) => Below(sys.local, s) && WellKinded(kinds, s)
    case ReplicaUpdate(p, s) => p !in sys.unmanaged && Below(Replica(sys, p), s) && WellKinded(kinds, s)
    case Sync(p) => !GenerateOutcome(sys.table, sys.local, p).Exhausted?
    case Deliver(m) => m in sys.sent
    case AckArrives(a) => a in sys.acks
    case Crash(_) => true
    case Forget(_) => true
  }

  /** A batch is generated for the peer and sent. */
  function Transmit(sys: System, p: nat): System {
    var out := GenerateOutcome(sys.table, sys.local, p);
    sys.(table := Generated(sys.table, sys.local, p),
         sent := if out.Emitted? then sys.sent + {Message(p, out.batch)} else sys.sent)
  }

  /** Without packet tracking the sender acknowledges what it just sent;
      without a manager the receiver drops the batch and acknowledges it. */
  function Next(sys: System, step: Step): System {
    match step
    case LocalUpdate(s) => sys.(local := s)
    case ReplicaUpdate(p, s) => sys.(replicas := sys.replicas[p := s])
    case Sync(p) =>
      var next := Transmit(sys, p);
      if p in sys.untracked && GenerateOutcome(sys.table, sys.local, p).Emitted? then
        next.(table := Acknowledged(next.table, p, sys.table.nextBatchId))
      else next
    case Deliver(m) =>
      sys.(replicas := if m.peer in sys.unmanaged then sys.replicas
                       else sys.replicas[m.peer := ApplyOps(Replica(sys, m.peer), m.batch.ops)],
           acks := sys.acks + {Ack(m.peer, m.batch.id)})
    case AckArrives(a) => sys.(table := Acknowledged(sys.table, a.peer, a.batchId))
    case Crash(p) => sys.(replicas := sys.replicas[p := map[]], lost := sys.lost + {p})
    case Forget(p) => sys.(table := Forgotten(sys.table, p), lost := sys.lost - {p})
  }

  predicate ValidRun(kinds: nat -> Kind, sys: System, steps: seq<Step>)
    decreases |steps|
  {
    steps == [] || (Enabled(kinds, sys, steps[0]) && ValidRun(kinds, Next(sys, steps[0]), steps[1..]))
  }

  function After(sys: System, steps: seq<Step>): System
    decreases |steps|
  {
    if steps == [] then sys else After(Next(sys, steps[0]), steps[1..])
  }

  // ----- receiving a batch -----

  predicate OpsKinded(kinds: nat -> Kind, ops: seq<DeltaOp>) {
    forall op :: op in ops ==> KindOf(op.entry) == kinds(op.id)
  }

  lemma {:induction false} ApplyOpGrows(kinds: nat -> Kind, r: State, op: DeltaOp)
    requires WellKinded(kinds, r) && KindOf(op.entry) == kinds(op.id)
    ensures Below(r, ApplyOp(r, op)) && WellKinded(kinds, ApplyOp(r, op))
  {
    forall id | id in r
      ensures Leq(r[id], ApplyOp(r, op)[id])
    {
      LeqReflexive(r[id]);
      if id == op.id { MergeIsJoin(r[id], op.entry, r[id]); }
    }
  }

  lemma {:induction false} ApplyOpsGrows(kinds: nat -> Kind, r: State, ops: seq<DeltaOp>)
    requires WellKinded(kinds, r) && OpsKinded(kinds, ops)
    ensures Below(r, ApplyOps(r, ops)) && WellKinded(kinds, ApplyOps(r, ops))
    decreases |ops|
  {
    BelowReflexive(r);
    if ops != [] {
      var first := ApplyOp(r, ops[0]);
      ApplyOpGrows(kinds, r, ops[0]);
      ApplyOpsGrows(kinds, first, ops[1..]);
      BelowTransitive(r, first, ApplyOps(first, ops[1..]));
    }
  }

  /** Applied to a replica that holds `acked`, the operation makes it hold `e`. */
  predicate OpCovers(op: DeltaOp, id: nat, e: Entry, acked: State) {
    && op.id == id && KindOf(op.entry) == KindOf(e)
    && if op.isDelta then id in acked && KindOf(acked[id]) == KindOf(e) && Leq(e, Merge(acked[id], op.entry))
       else Leq(e, op.entry)
  }

  lemma {:induction false} OpCoversMonotone(op: DeltaOp, id: nat, e: Entry, acked: State, more: State)
    requires OpCovers(op, id, e, acked) && Below(acked, more)
    ensures OpCovers(op, id, e, more)
  {
    if op.isDelta {
      var old_, new_ := Merge(acked[id], op.entry), Merge(more[id], op.entry);
      MergeIsJoin(more[id], op.entry, new_);
      LeqTransitive(acked[id], more[id], new_);
      MergeIsJoin(acked[id], op.entry, new_);
      LeqTransitive(e, old_, new_);
    }
  }

  lemma {:induction false} CoveringOpReaches(kinds: nat -> Kind, r: State, op: DeltaOp, e: Entry, acked: State)
    requires WellKinded(kinds, r) && OpCovers(op, op.id, e, acked) && Below(acked, r) && KindOf(e) == kinds(op.id)
    ensures op.id in ApplyOp(r, op) && Leq(e, ApplyOp(r, op)[op.id])
  {
    OpCoversMonotone(op, op.id, e, acked, r);
    if op.id in r && !op.isDelta {
      MergeIsJoin(r[op.id], op.entry, e);
      LeqTransitive(e, op.entry, Merge(r[op.id], op.entry));
    }
  }

  predicate Reaches(ops: seq<DeltaOp>, id: nat, e: Entry, acked: State) {
    exists op :: op in ops && OpCovers(op, id, e, acked)
  }

  lemma {:induction false} ApplyOpsReaches(kinds: nat -> Kind, r: State, ops: seq<DeltaOp>, id: nat, e: Entry, acked: State)
    requires WellKinded(kinds, r) && OpsKinded(kinds, ops) && Below(acked, r) && KindOf(e) == kinds(id)
    requires Reaches(ops, id, e, acked)
    ensures id in ApplyOps(r, ops) && Leq(e, ApplyOps(r, ops)[id])
    decreases |ops|
  {
    var op :| op in ops && OpCovers(op, id, e, acked);
    var first := ApplyOp(r, ops[0]);
    ApplyOpGrows(kinds, r, ops[0]);
    if op == ops[0] {
      CoveringOpReaches(kinds, r, op, e, acked);
      ApplyOpsGrows(kinds, first, ops[1..]);
      LeqTransitive(e, first[id], ApplyOps(r, ops)[id]);
    } else {
      BelowTransitive(acked, r, first);
      ApplyOpsReaches(kinds, first, ops[1..], id, e, acked);
    }
  }

  /** The batch brings any replica holding `acked` up to `represented`. */
  predicate Sufficient(ops: seq<DeltaOp>, represented: State, acked: State) {
    forall id :: id in represented ==> Reaches(ops, id, represented[id], acked)
  }

  lemma {:induction false} SufficientMonotone(ops: seq<DeltaOp>, represented: State, acked: State, more: State)
    requires Sufficient(ops, represented, acked) && Below(acked, more)
    ensures Sufficient(ops, represented, more)
  {
    forall id | id in represented
      ensures Reaches(ops, id, represented[id], more)
    {
      var op :| op in ops && OpCovers(op, id, represented[id], acked);
      OpCoversMonotone(op, id, represented[id], acked, more);
    }
  }

  lemma {:induction false} SufficientDelivers(kinds: nat -> Kind, r: State, ops: seq<DeltaOp>, represented: State, acked: State)
    requires WellKinded(kinds, r) && WellKinded(kinds, represented) && OpsKinded(kinds, ops)
    requires Below(acked, r) && Sufficient(ops, represented, acked)
    ensures Below(represented, ApplyOps(r, ops))
  {
    forall id | id in represented
      ensures id in ApplyOps(r, ops) && Leq(represented[id], ApplyOps(r, ops)[id])
    {
      ApplyOpsReaches(kinds, r, ops, id, represented[id], acked);
    }
  }

  predicate OpsBelow(ops: seq<DeltaOp>, s: State) {
    forall op :: op in ops ==> op.id in s && Leq(op.entry, s[op.id])
  }

  lemma {:induction false} ApplyOpsBelow(kinds: nat -> Kind, r: State, ops: seq<DeltaOp>, s: State)
    requires WellKinded(kinds, r) && OpsKinded(kinds, ops) && Below(r, s) && OpsBelow(ops, s)
    ensures Below(ApplyOps(r, ops), s)
    decreases |ops|
  {
    if ops != [] {
      var op, first := ops[0], ApplyOp(r, ops[0]);
      ApplyOpGrows(kinds, r, op);
      if op.id in r { MergeIsJoin(r[op.id], op.entry, s[op.id]); }
      assert Below(first, s);
      ApplyOpsBelow(kinds, first, ops[1..], s);
    }
  }

  // ----- a freshly generated batch -----

  lemma {:induction false} FreshOp(kinds: nat -> Kind, s: State, acked: State, id: nat)
    requires WellKinded(kinds, s) && WellKinded(kinds, acked) && id in s && Needs(s, acked, id)
    ensures var op := OpFor(s, acked, id);
            KindOf(op.entry) == kinds(id) && Leq(op.entry, s[id]) && OpCovers(op, id, s[id], acked)
  {
    LeqReflexive(s[id]);
    if id in acked {
      LeqReflexive(acked[id]);
      DeltaExact(s[id], acked[id], acked[id]);
    }
  }

  lemma {:induction false} FreshBatch(kinds: nat -> Kind, s: State, acked: State)
    requires WellKinded(kinds, s) && WellKinded(kinds, acked)
    ensures OpsKinded(kinds, BatchOps(s, acked)) && OpsBelow(BatchOps(s, acked), s)
    ensures Sufficient(BatchOps(s, acked), Represented(s, acked), acked)
  {
    hide DeltaSince, Merge, Leq, OpCovers;
    OpsForExact(s, acked, Sorted(s.Keys));
    forall id | id in s && Needs(s, acked, id)
      ensures var op := OpFor(s, acked, id);
              KindOf(op.entry) == kinds(id) && Leq(op.entry, s[id]) && OpCovers(op, id, s[id], acked)
      ensures Reaches(BatchOps(s, acked), id, s[id], acked)
    {
      FreshOp(kinds, s, acked, id);
      assert OpFor(s, acked, id) in BatchOps(s, acked);
    }
  }
}
