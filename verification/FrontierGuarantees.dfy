/** What the synchronisation protocol guarantees on every run, and where the
    surrounding runtime can defeat it (src/crdt_peer_sync.rs,
    src/runtime/distributed.rs, src/runtime/distribution.rs). */
module FrontierGuarantees {
  import opened Crdt
  import opened Ordered
  import opened Frontiers
  import opened FrontierProtocol
  import opened FrontierInvariant

  // ----- safety over whole runs -----

  /** A trusted receiver holds everything it has acknowledged; in-flight
      batches are bounded in number and newer than the last acknowledgement. */
  lemma {:induction false} AcknowledgedIsHeld(kinds: nat -> Kind, start: System, steps: seq<Step>, p: nat)
    requires Initial(start) && ValidRun(kinds, start, steps)
    ensures var sys := After(start, steps);
            var f := Frontier(sys.table, p);
            && (Trusted(sys, p) ==> Below(f.acknowledged, Replica(sys, p)))
            && |f.pending| <= sys.table.maxPending
            && forall b :: b in f.pending ==> f.lastAcked < b < sys.table.nextBatchId
  {
    hide Initial, ValidRun, After, Below, WellKinded, Under, Subsumed, Sufficient, Trusted;
    InitialInv(kinds, start);
    RunKeepsInv(kinds, start, steps);
    var sys := After(start, steps);
    assert PeerOk(kinds, sys, p);
    forall b | b in Frontier(sys.table, p).pending
      ensures Frontier(sys.table, p).lastAcked < b < sys.table.nextBatchId
    {
      assert PendingOk(kinds, Frontier(sys.table, p), sys.local, sys.table.nextBatchId, b);
    }
  }

  /** When there is nothing to send, the receiver holds every local update. */
  lemma {:induction false} SilenceMeansDelivered(kinds: nat -> Kind, start: System, steps: seq<Step>, p: nat)
    requires Initial(start) && ValidRun(kinds, start, steps) && Trusted(After(start, steps), p)
    requires GenerateOutcome(After(start, steps).table, After(start, steps).local, p).UpToDate?
    ensures Below(After(start, steps).local, Replica(After(start, steps), p))
  {
    hide Initial, ValidRun, After, Below, WellKinded, Sufficient, GenerateOutcome, Trusted;
    var sys := After(start, steps);
    InitialInv(kinds, start);
    RunKeepsInv(kinds, start, steps);
    assert PeerOk(kinds, sys, p);
    var acked := Frontier(sys.table, p).acknowledged;
    UpToDateIffCovered(kinds, sys.table, sys.local, p);
    BelowTransitive(sys.local, acked, Replica(sys, p));
  }

  /** No receiver updates its replicas by itself. */
  predicate OneWay(steps: seq<Step>) { forall i :: 0 <= i < |steps| ==> !steps[i].ReplicaUpdate? }

  lemma {:induction false} OneWayStep(kinds: nat -> Kind, sys: System, step: Step, p: nat)
    requires Inv(kinds, sys) && Enabled(kinds, sys, step) && !step.ReplicaUpdate?
    requires Below(Replica(sys, p), sys.local)
    ensures Below(Replica(Next(sys, step), p), Next(sys, step).local)
  {
    hide PeerOk, Represented, Evict, BatchOps, ApplyOps, Leq, OpsKinded, OpsBelow;
    match step
    case LocalUpdate(s) => BelowTransitive(Replica(sys, p), sys.local, s);
    case Deliver(m) =>
      if p == m.peer {
        ReplicaKinded(kinds, sys, p);
        ApplyOpsBelow(kinds, Replica(sys, p), m.batch.ops, sys.local);
      }
    case _ =>
  }

  lemma {:induction false} ReplicaKinded(kinds: nat -> Kind, sys: System, p: nat)
    requires Inv(kinds, sys)
    ensures WellKinded(kinds, Replica(sys, p))
  {
    hide FrontierOk, Below, Sufficient, WellKinded;
    assert PeerOk(kinds, sys, p);
  }

  lemma {:induction false} OneWayRun(kinds: nat -> Kind, sys: System, steps: seq<Step>, p: nat)
    requires Inv(kinds, sys) && ValidRun(kinds, sys, steps) && OneWay(steps)
    requires Below(Replica(sys, p), sys.local)
    ensures Below(Replica(After(sys, steps), p), After(sys, steps).local)
    decreases |steps|
  {
    hide Inv, Enabled, Next, Below;
    if steps != [] {
      StepKeepsInv(kinds, sys, steps[0]);
      OneWayStep(kinds, sys, steps[0], p);
      assert OneWay(steps[1..]) by {
        assert forall i :: 0 <= i < |steps[1..]| ==> steps[1..][i] == steps[i + 1];
      }
      OneWayRun(kinds, Next(sys, steps[0]), steps[1..], p);
    }
  }

  /** With the sender as the only writer, silence means convergence: the
      receiver has the same replicas with the same values. */
  lemma {:induction false} SilenceMeansConverged(kinds: nat -> Kind, start: System, steps: seq<Step>, p: nat)
    requires Initial(start) && ValidRun(kinds, start, steps) && OneWay(steps) && Trusted(After(start, steps), p)
    requires GenerateOutcome(After(start, steps).table, After(start, steps).local, p).UpToDate?
    ensures var sys := After(start, steps);
            && sys.local.Keys == Replica(sys, p).Keys
            && forall id :: id in sys.local ==> SameValue(sys.local[id], Replica(sys, p)[id])
  {
    hide ValidRun, After, Leq, GenerateOutcome, Trusted;
    var sys := After(start, steps);
    SilenceMeansDelivered(kinds, start, steps, p);
    InitialInv(kinds, start);
    assert Below(Replica(start, p), start.local);
    OneWayRun(kinds, start, steps, p);
    forall id | id in sys.local
      ensures SameValue(sys.local[id], Replica(sys, p)[id])
    {
      LeqAntisymmetric(sys.local[id], Replica(sys, p)[id]);
    }
  }

  // ----- the frontier only moves forward -----

  lemma {:induction false} AckStep(kinds: nat -> Kind, sys: System, p: nat, b: nat)
    requires PeerOk(kinds, sys, p)
    ensures var f, g := Frontier(sys.table, p), Frontier(Acknowledged(sys.table, p, b), p);
            Below(f.acknowledged, g.acknowledged) && f.lastAcked <= g.lastAcked
  {
    hide Below, Sufficient, FrontierOk, WellKinded, Trusted;
    var f := Frontier(sys.table, p);
    BelowReflexive(f.acknowledged);
    if p in sys.table.peers && Accepts(f, b) {
      AckedFrontier(sys, p, b);
      AckAdvances(kinds, f, sys.local, sys.table.nextBatchId, sys.table.maxPending, b);
    }
  }

  lemma {:induction false} SyncStep(kinds: nat -> Kind, sys: System, p: nat)
    requires Inv(kinds, sys)
    ensures var f, g := Frontier(sys.table, p), Frontier(Next(sys, Sync(p)).table, p);
            Below(f.acknowledged, g.acknowledged) && f.lastAcked <= g.lastAcked
  {
    hide PeerOk, Represented, Evict, BatchOps, Below, WellKinded, OpsKinded, OpsBelow, AfterSync;
    var f, mid := Frontier(sys.table, p), Transmit(sys, p);
    BelowReflexive(f.acknowledged);
    if GenerateOutcome(sys.table, sys.local, p).Emitted? {
      SyncedFrontier(sys, p);
      AfterSyncRest(f, sys.local, sys.table.nextBatchId, sys.table.maxPending);
      SyncKeepsPeer(kinds, sys, p);
      AckStep(kinds, mid, p, sys.table.nextBatchId);
    }
  }

  lemma {:induction false} FrontierStep(kinds: nat -> Kind, sys: System, step: Step, p: nat)
    requires Inv(kinds, sys) && Enabled(kinds, sys, step) && step != Forget(p)
    ensures var f, g := Frontier(sys.table, p), Frontier(Next(sys, step).table, p);
            Below(f.acknowledged, g.acknowledged) && f.lastAcked <= g.lastAcked
  {
    hide Represented, Evict, BatchOps, ApplyOps, Leq, Below, PeerOk, OpsKinded, OpsBelow;
    var f := Frontier(sys.table, p);
    assert PeerOk(kinds, sys, p);
    BelowReflexive(f.acknowledged);
    match step {
      case AckArrives(a) => if a.peer == p { AckStep(kinds, sys, p, a.batchId); }
      case Sync(q) => if q == p { SyncStep(kinds, sys, p); }
      case _ =>
    }
  }

  /** Late, repeated and reordered acknowledgements never take knowledge
      back: until the peer is forgotten, its frontier only grows. */
  lemma {:induction false} FrontierMonotone(kinds: nat -> Kind, sys: System, steps: seq<Step>, p: nat)
    requires Inv(kinds, sys) && ValidRun(kinds, sys, steps) && Forget(p) !in steps
    ensures var f, g := Frontier(sys.table, p), Frontier(After(sys, steps).table, p);
            Below(f.acknowledged, g.acknowledged) && f.lastAcked <= g.lastAcked
    decreases |steps|
  {
    hide Inv, Enabled, Next, Below, Frontier;
    if steps == [] {
      BelowReflexive(Frontier(sys.table, p).acknowledged);
    } else {
      var mid := Next(sys, steps[0]);
      StepKeepsInv(kinds, sys, steps[0]);
      FrontierStep(kinds, sys, steps[0], p);
      FrontierMonotone(kinds, mid, steps[1..], p);
      BelowTransitive(Frontier(sys.table, p).acknowledged, Frontier(mid.table, p).acknowledged,
        Frontier(After(sys, steps).table, p).acknowledged);
    }
  }

  // ----- retired batches -----

  /** Evicted, acknowledged, superseded or belonging to an earlier life of the
      peer: the batch was issued and is no longer pending. */
  predicate Retired(sys: System, p: nat, b: nat) {
    b < sys.table.nextBatchId && b !in Frontier(sys.table, p).pending
  }

  lemma {:induction false} RetiredAck(sys: System, p: nat, q: nat, b: nat, c: nat)
    requires Retired(sys, p, b)
    ensures Retired(Acked(sys, q, c), p, b)
  {
  }

  lemma {:induction false} RetiredStep(kinds: nat -> Kind, sys: System, step: Step, p: nat, b: nat)
    requires Inv(kinds, sys) && Enabled(kinds, sys, step) && Retired(sys, p, b)
    ensures Retired(Next(sys, step), p, b)
  {
    hide Represented, Evict, BatchOps, ApplyOps, Below, PeerOk, OpsKinded, OpsBelow, WellKinded, AfterSync, Acknowledged;
    var t, f := sys.table, Frontier(sys.table, p);
    match step {
      case Sync(q) =>
        if q == p && GenerateOutcome(t, sys.local, p).Emitted? {
          SyncedFrontier(sys, p);
          AfterSyncPending(f, sys.local, t.nextBatchId, t.maxPending);
        }
        assert Retired(Transmit(sys, q), p, b);
        RetiredAck(Transmit(sys, q), p, q, b, t.nextBatchId);
      case AckArrives(a) => RetiredAck(sys, p, a.peer, b, a.batchId);
      case _ =>
    }
  }

  /** An acknowledgement for a retired batch never has an effect again. */
  lemma {:induction false} RetiredAckIgnored(kinds: nat -> Kind, sys: System, steps: seq<Step>, p: nat, b: nat)
    requires Inv(kinds, sys) && ValidRun(kinds, sys, steps) && Retired(sys, p, b)
    ensures Retired(After(sys, steps), p, b)
    ensures Acknowledged(After(sys, steps).table, p, b) == After(sys, steps).table
    decreases |steps|
  {
    hide Inv, Enabled, Next;
    if steps == [] {
      assert PeerOk(kinds, sys, p) by { PeerIsOk(kinds, sys, p); }
      IgnoredAck(kinds, sys, p, b);
    } else {
      StepKeepsInv(kinds, sys, steps[0]);
      RetiredStep(kinds, sys, steps[0], p, b);
      RetiredAckIgnored(kinds, Next(sys, steps[0]), steps[1..], p, b);
    }
  }

  lemma {:induction false} PeerIsOk(kinds: nat -> Kind, sys: System, p: nat)
    requires Inv(kinds, sys)
    ensures PeerOk(kinds, sys, p)
  {
  }

  /** Forgetting a peer retires every batch sent to it before. */
  lemma {:induction false} ForgetRetiresAll(kinds: nat -> Kind, sys: System, p: nat, m: Message)
    requires Inv(kinds, sys) && m in sys.sent && m.peer == p
    ensures Retired(Next(sys, Forget(p)), p, m.batch.id)
  {
    assert PeerOk(kinds, sys, p);
    assert SentOk(Frontier(sys.table, p), sys.table.nextBatchId, m.batch);
  }

  // ----- progress -----

  lemma {:induction false} AckedSyncCovers(kinds: nat -> Kind, f: PeerFrontier, local: State, next: nat, limit: nat)
    requires FrontierOk(kinds, f, local, next, limit) && WellKinded(kinds, local) && limit >= 1
    ensures var g := AfterSync(f, local, next, limit);
            && Accepts(g, next)
            && WellKinded(kinds, AfterAck(g, next).acknowledged)
            && Below(local, AfterAck(g, next).acknowledged)
  {
    hide Leq, DeltaSince;
    var acked, rep := f.acknowledged, Represented(local, f.acknowledged);
    var whole := f.pending[next := rep];
    forall b | b in whole
      ensures b <= next
    {
      assert b != next ==> PendingOk(kinds, f, local, next, b);
    }
    EvictKeepsLast(whole, limit, next);
    EvictKeepsNewest(whole, limit);
    var g := AfterSync(f, local, next, limit);
    assert g.pending[next] == rep;
    BelowReflexive(local);
    forall id | id in local
      ensures id in acked + rep && Leq(local[id], (acked + rep)[id])
    {
      if !Needs(local, acked, id) { DeltaExact(local[id], acked[id], acked[id]); }
    }
  }

  /** Once the newest batch is acknowledged there is nothing left to send. */
  lemma {:induction false} AckedSyncIsUpToDate(kinds: nat -> Kind, sys: System, p: nat)
    requires Inv(kinds, sys) && GenerateOutcome(sys.table, sys.local, p).Emitted?
    ensures var t := Acknowledged(Generated(sys.table, sys.local, p), p, sys.table.nextBatchId);
            GenerateOutcome(t, sys.local, p).UpToDate?
  {
    hide Represented, Evict, BatchOps, WellKinded, Below, FrontierOk, Sufficient, AfterSync;
    var f, next := Frontier(sys.table, p), sys.table.nextBatchId;
    assert PeerOk(kinds, sys, p);
    SyncedFrontier(sys, p);
    AckedSyncCovers(kinds, f, sys.local, next, sys.table.maxPending);
    var t := Acknowledged(Generated(sys.table, sys.local, p), p, next);
    assert Frontier(t, p) == AfterAck(AfterSync(f, sys.local, next, sys.table.maxPending), next);
    UpToDateIffCovered(kinds, t, sys.local, p);
  }

  function Exchange(sys: System, p: nat): seq<Step>
    requires GenerateOutcome(sys.table, sys.local, p).Emitted?
  {
    var batch := GenerateOutcome(sys.table, sys.local, p).batch;
    [Sync(p), Deliver(Message(p, batch)), AckArrives(Ack(p, batch.id))]
  }

  /** The table after a batch was generated and acknowledged, once or twice. */
  lemma {:induction false} AckedTwice(kinds: nat -> Kind, sys: System, p: nat)
    requires Inv(kinds, sys) && GenerateOutcome(sys.table, sys.local, p).Emitted?
    ensures var t := Acknowledged(Generated(sys.table, sys.local, p), p, sys.table.nextBatchId);
            Acknowledged(t, p, sys.table.nextBatchId) == t
  {
    hide PeerOk, Represented, Evict, BatchOps, WellKinded, Below;
    var mid, b := Transmit(sys, p), sys.table.nextBatchId;
    SyncKeepsPeer(kinds, sys, p);
    if Accepts(Frontier(mid.table, p), b) {
      var f, t := Frontier(mid.table, p), Acknowledged(mid.table, p, b);
      var g := Frontier(t, p);
      assert g.lastAcked == b && b !in g.pending;
      assert g.pending - {b} == g.pending;
      assert t.peers[p := g] == t.peers;
    } else {
      IgnoredAck(kinds, mid, p, b);
    }
  }

  /** From any reachable state, whatever was lost before, one exchange that
      gets through leaves nothing to send. */
  lemma {:induction false} OneExchangeSuffices(kinds: nat -> Kind, sys: System, p: nat)
    requires Inv(kinds, sys) && GenerateOutcome(sys.table, sys.local, p).Emitted?
    ensures ValidRun(kinds, sys, Exchange(sys, p))
    ensures var end := After(sys, Exchange(sys, p));
            end.local == sys.local && GenerateOutcome(end.table, end.local, p).UpToDate?
  {
    hide Inv, Below, WellKinded, Generated, Acknowledged, ApplyOps, BatchOps;
    AckedSyncIsUpToDate(kinds, sys, p);
    AckedTwice(kinds, sys, p);
    ExchangeRun(kinds, sys, p);
  }

  lemma {:induction false} ExchangeRun(kinds: nat -> Kind, sys: System, p: nat)
    requires GenerateOutcome(sys.table, sys.local, p).Emitted?
    ensures ValidRun(kinds, sys, Exchange(sys, p))
    ensures var t := Acknowledged(Generated(sys.table, sys.local, p), p, sys.table.nextBatchId);
            var end := After(sys, Exchange(sys, p));
            && end.table == (if p in sys.untracked then Acknowledged(t, p, sys.table.nextBatchId) else t)
            && end.local == sys.local && end.lost == sys.lost && end.untracked == sys.untracked && end.unmanaged == sys.unmanaged
            && (p in sys.unmanaged ==> Replica(end, p) == Replica(sys, p))
  {
    hide Below, WellKinded, Generated, Acknowledged, ApplyOps, BatchOps;
    var steps := Exchange(sys, p);
    var s1 := Next(sys, steps[0]);
    var s2 := Next(s1, steps[1]);
    var s3 := Next(s2, steps[2]);
    assert steps[1..][1..] == [steps[2]] && steps[1..][1..][1..] == [];
    assert After(sys, steps) == After(s1, steps[1..]) == After(s2, [steps[2]]) == s3;
    assert ValidRun(kinds, s2, [steps[2]]);
    assert ValidRun(kinds, s1, steps[1..]);
  }

  // ----- joining -----

  lemma {:induction false} ApplyOpsAppend(r: State, xs: seq<DeltaOp>, ys: seq<DeltaOp>)
    ensures ApplyOps(r, xs + ys) == ApplyOps(ApplyOps(r, xs), ys)
    decreases |xs|
  {
    hide ApplyOp;
    if xs == [] {
      assert xs + ys == ys;
    } else {
      assert (xs + ys)[1..] == xs[1..] + ys;
      ApplyOpsAppend(ApplyOp(r, xs[0]), xs[1..], ys);
    }
  }

  function Restrict(s: State, ids: seq<nat>): State { map id | id in s && id in ids :: s[id] }

  lemma {:induction false} RestrictSnoc(s: State, front: seq<nat>, last: nat)
    requires last in s && last !in front
    ensures ApplyOps(Restrict(s, front), [DeltaOp(last, s[last], false)]) == Restrict(s, front + [last])
  {
    hide Merge;
    var op := DeltaOp(last, s[last], false);
    assert ApplyOps(Restrict(s, front), [op]) == ApplyOp(Restrict(s, front), op);
  }

  lemma {:induction false} RebuildPrefix(s: State, ids: seq<nat>)
    requires forall id :: id in ids ==> id in s
    requires forall i, j :: 0 <= i < j < |ids| ==> ids[i] < ids[j]
    ensures ApplyOps(map[], OpsFor(s, map[], ids)) == Restrict(s, ids)
    decreases |ids|
  {
    hide DeltaSince, Merge, ApplyOp, Restrict;
    if ids == [] {
      assert OpsFor(s, map[], []) == [];
      NothingRestricted(s);
    } else {
      var front, last := ids[..|ids| - 1], ids[|ids| - 1];
      assert ids == front + [last] && last !in front;
      RebuildPrefix(s, front);
      ApplyOpsAppend(map[], OpsFor(s, map[], front), [DeltaOp(last, s[last], false)]);
      RestrictSnoc(s, front, last);
    }
  }

  lemma {:induction false} NothingRestricted(s: State)
    ensures Restrict(s, []) == map[] && Restrict(s, Sorted(s.Keys)) == s
  {
  }

  /** The batch for a forgotten or new peer rebuilds the whole local state on
      an empty replica. */
  lemma {:induction false} JoinBatchRebuilds(t: Table, s: State, p: nat)
    requires s != map[] && t.nextBatchId < U64_MAX
    ensures var out := GenerateOutcome(Forgotten(t, p), s, p);
            out.Emitted? && ApplyOps(map[], out.batch.ops) == s
  {
    hide ApplyOp, OpsFor, Restrict;
    RebuildPrefix(s, Sorted(s.Keys));
    NothingRestricted(s);
    assert ApplyOps(map[], []) == map[];
  }

  // ----- acknowledgements that prove nothing -----

  function FreshEntry(kind: Kind): (e: Entry)
    ensures KindOf(e) == kind
  {
    match kind
    case GCounterKind => GCounter(map[1 := 1])
    case PNCounterKind => PNCounter(map[1 := 1], map[])
    case GSetKind => GSet({""})
  }

  function OneEntry(kinds: nat -> Kind): (s: State)
    ensures s != map[]
  {
    var s: State := map[7 := FreshEntry(kinds(7))];
    assert 7 in s;
    s
  }

  /** One update and one exchange with the peer. */
  function Opening(kinds: nat -> Kind, start: System, p: nat): seq<Step>
    requires Initial(start)
  {
    var mid := Next(start, LocalUpdate(OneEntry(kinds)));
    JoinBatchRebuilds(mid.table, mid.local, p);
    assert Forgotten(mid.table, p) == mid.table;
    [LocalUpdate(OneEntry(kinds))] + Exchange(mid, p)
  }

  lemma {:induction false} OpeningRun(kinds: nat -> Kind, start: System, p: nat)
    requires Initial(start)
    ensures ValidRun(kinds, start, Opening(kinds, start, p))
    ensures var end := After(start, Opening(kinds, start, p));
            && end.local == OneEntry(kinds) && GenerateOutcome(end.table, end.local, p).UpToDate?
            && Below(end.local, Frontier(end.table, p).acknowledged)
            && end.lost == {} && (p in start.unmanaged ==> Replica(end, p) == map[])
  {
    hide Below, WellKinded, GenerateOutcome, Generated, Acknowledged, Inv, ApplyOps, Exchange;
    var update := LocalUpdate(OneEntry(kinds));
    var mid := Next(start, update);
    assert Enabled(kinds, start, update) by { OneEntryFacts(kinds, map[]); }
    InitialInv(kinds, start);
    StepKeepsInv(kinds, start, update);
    JoinBatchRebuilds(mid.table, mid.local, p);
    assert Forgotten(mid.table, p) == mid.table;
    ExchangeRun(kinds, mid, p);
    OneExchangeSuffices(kinds, mid, p);
    var steps := Opening(kinds, start, p);
    assert steps[0] == update && steps[1..] == Exchange(mid, p);
    var end := After(start, steps);
    assert end == After(mid, Exchange(mid, p));
    RunKeepsInv(kinds, mid, Exchange(mid, p));
    SilentMeansAcked(kinds, end, p);
  }

  lemma {:induction false} SilentMeansAcked(kinds: nat -> Kind, sys: System, p: nat)
    requires Inv(kinds, sys) && GenerateOutcome(sys.table, sys.local, p).UpToDate?
    ensures Below(sys.local, Frontier(sys.table, p).acknowledged)
  {
    hide Below, WellKinded, Sufficient, GenerateOutcome, Trusted, Under, Subsumed;
    assert PeerOk(kinds, sys, p);
    UpToDateIffCovered(kinds, sys.table, sys.local, p);
  }

  lemma {:induction false} OneEntryFacts(kinds: nat -> Kind, other: State)
    ensures Below(map[], OneEntry(kinds)) && WellKinded(kinds, OneEntry(kinds))
    ensures Below(OneEntry(kinds), other) ==> other != map[]
  {
    assert 7 in OneEntry(kinds);
  }

  /** After a run, what the sender takes the peer to hold is held. */
  predicate TruthfulAfter(start: System, steps: seq<Step>, p: nat) {
    var sys := After(start, steps);
    Below(Frontier(sys.table, p).acknowledged, Replica(sys, p))
  }

  lemma {:induction false} ClaimsNothingHeld(kinds: nat -> Kind, start: System, steps: seq<Step>, p: nat)
    requires var sys := After(start, steps);
             Replica(sys, p) == map[] && Below(OneEntry(kinds), Frontier(sys.table, p).acknowledged)
    ensures !TruthfulAfter(start, steps, p)
    ensures !Below(OneEntry(kinds), Replica(After(start, steps), p))
  {
    hide After, Leq;
    OneEntryFacts(kinds, map[]);
    assert 7 in OneEntry(kinds);
  }

  /** A receiver without a replica manager: it acknowledges the batch it drops,
      the sender falls silent, and the receiver holds nothing. */
  lemma {:induction false} DroppedBatchIsLost(kinds: nat -> Kind, start: System, p: nat)
    requires Initial(start) && p in start.unmanaged
    ensures ValidRun(kinds, start, Opening(kinds, start, p)) && !TruthfulAfter(start, Opening(kinds, start, p), p)
    ensures var end := After(start, Opening(kinds, start, p));
            GenerateOutcome(end.table, end.local, p).UpToDate? && !Below(end.local, Replica(end, p)) && end.lost == {}
  {
    hide ValidRun, After, Below, GenerateOutcome, TruthfulAfter, Opening;
    OpeningRun(kinds, start, p);
    ClaimsNothingHeld(kinds, start, Opening(kinds, start, p), p);
  }

  function Optimistic(kinds: nat -> Kind, p: nat): seq<Step> { [LocalUpdate(OneEntry(kinds)), Sync(p)] }

  lemma {:induction false} OptimisticRun(kinds: nat -> Kind, start: System, p: nat)
    requires Initial(start) && p in start.untracked
    ensures ValidRun(kinds, start, Optimistic(kinds, p))
    ensures var end := After(start, Optimistic(kinds, p));
            && end.local == OneEntry(kinds) && GenerateOutcome(end.table, end.local, p).UpToDate?
            && Replica(end, p) == map[] && end.lost == {}
  {
    hide Below, WellKinded, GenerateOutcome, Generated, Acknowledged, Inv, ApplyOps;
    var update := LocalUpdate(OneEntry(kinds));
    var mid := Next(start, update);
    assert Enabled(kinds, start, update) by { OneEntryFacts(kinds, map[]); }
    InitialInv(kinds, start);
    StepKeepsInv(kinds, start, update);
    JoinBatchRebuilds(mid.table, mid.local, p);
    assert Forgotten(mid.table, p) == mid.table;
    AckedSyncIsUpToDate(kinds, mid, p);
    var end := Next(mid, Sync(p));
    assert [update, Sync(p)][1..] == [Sync(p)] && [Sync(p)][1..] == [];
    assert ValidRun(kinds, mid, [Sync(p)]);
    assert After(mid, [Sync(p)]) == After(end, []) == end;
  }

  /** A transport without packet tracking: the only batch is acknowledged
      without having been delivered. */
  lemma {:induction false} OptimisticAckLosesUpdate(kinds: nat -> Kind, start: System, p: nat)
    requires Initial(start) && p in start.untracked
    ensures ValidRun(kinds, start, Optimistic(kinds, p)) && !TruthfulAfter(start, Optimistic(kinds, p), p)
    ensures var end := After(start, Optimistic(kinds, p));
            GenerateOutcome(end.table, end.local, p).UpToDate? && !Below(end.local, Replica(end, p)) && end.lost == {}
  {
    hide ValidRun, After, Below, GenerateOutcome, TruthfulAfter;
    OptimisticRun(kinds, start, p);
    InitialInv(kinds, start);
    RunKeepsInv(kinds, start, Optimistic(kinds, p));
    SilentMeansAcked(kinds, After(start, Optimistic(kinds, p)), p);
    ClaimsNothingHeld(kinds, start, Optimistic(kinds, p), p);
  }

  /** Over all runs, outside the time between a crash and the sender's
      forgetting, what the peer acknowledged it holds. */
  ghost predicate Truthful(kinds: nat -> Kind, start: System, p: nat) {
    forall steps :: ValidRun(kinds, start, steps) && p !in After(start, steps).lost ==> TruthfulAfter(start, steps, p)
  }

  /** That is so exactly for a peer reached over a tracking transport and with
      a replica manager. */
  lemma {:induction false} TruthfulIffTrackedAndManaged(kinds: nat -> Kind, start: System, p: nat)
    requires Initial(start)
    ensures Truthful(kinds, start, p) <==> p !in start.untracked && p !in start.unmanaged
  {
    hide ValidRun, After, Below, Initial;
    if p in start.untracked {
      OptimisticAckLosesUpdate(kinds, start, p);
    } else if p in start.unmanaged {
      DroppedBatchIsLost(kinds, start, p);
    } else {
      forall steps | ValidRun(kinds, start, steps) && p !in After(start, steps).lost
        ensures TruthfulAfter(start, steps, p)
      {
        SameConfiguration(start, steps);
        AcknowledgedIsHeld(kinds, start, steps, p);
      }
    }
  }

  lemma {:induction false} SameConfiguration(sys: System, steps: seq<Step>)
    ensures After(sys, steps).untracked == sys.untracked && After(sys, steps).unmanaged == sys.unmanaged
    decreases |steps|
  {
    hide Generated, Acknowledged, ApplyOps, GenerateOutcome;
    if steps != [] { SameConfiguration(Next(sys, steps[0]), steps[1..]); }
  }

  /** The guarantee holds for every peer exactly when both sets are empty. */
  lemma {:induction false} AllTruthfulIff(kinds: nat -> Kind, start: System)
    requires Initial(start)
    ensures (forall p :: Truthful(kinds, start, p)) <==> start.untracked == {} && start.unmanaged == {}
  {
    hide Initial, Truthful;
    forall p
      ensures Truthful(kinds, start, p) <==> p !in start.untracked && p !in start.unmanaged
    {
      TruthfulIffTrackedAndManaged(kinds, start, p);
    }
    if forall p :: Truthful(kinds, start, p) {
      forall p
        ensures p !in start.untracked && p !in start.unmanaged
      {
        assert Truthful(kinds, start, p);
      }
    }
  }

  /** Between a crash and the sender's forgetting the claim is false even for
      a trusted peer: the acknowledged update is gone. */
  lemma {:induction false} CrashWindow(kinds: nat -> Kind, start: System, p: nat)
    requires Initial(start)
    ensures var steps := Opening(kinds, start, p) + [Crash(p)];
            ValidRun(kinds, start, steps) && p in After(start, steps).lost && !TruthfulAfter(start, steps, p)
  {
    hide Below, GenerateOutcome, Initial, Opening, Enabled, Next;
    var opening := Opening(kinds, start, p);
    OpeningRun(kinds, start, p);
    var end := After(start, opening);
    RunJoin(kinds, start, opening, [Crash(p)]);
    CrashStep(kinds, end, p);
    ClaimsNothingHeld(kinds, start, opening + [Crash(p)], p);
  }

  lemma {:induction false} CrashStep(kinds: nat -> Kind, sys: System, p: nat)
    ensures ValidRun(kinds, sys, [Crash(p)])
    ensures var end := After(sys, [Crash(p)]);
            end.table == sys.table && end.local == sys.local && p in end.lost && Replica(end, p) == map[]
  {
    hide Below, GenerateOutcome, Generated, Acknowledged, ApplyOps;
    assert [Crash(p)][1..] == [];
    assert After(sys, [Crash(p)]) == After(Next(sys, Crash(p)), []);
  }

  lemma {:induction false} RunJoin(kinds: nat -> Kind, sys: System, xs: seq<Step>, ys: seq<Step>)
    ensures After(sys, xs + ys) == After(After(sys, xs), ys)
    ensures ValidRun(kinds, sys, xs + ys) <==> ValidRun(kinds, sys, xs) && ValidRun(kinds, After(sys, xs), ys)
    decreases |xs|
  {
    hide Enabled, Next;
    if xs == [] {
      assert xs + ys == ys;
    } else {
      assert (xs + ys)[1..] == xs[1..] + ys;
      RunJoin(kinds, Next(sys, xs[0]), xs[1..], ys);
    }
  }
}
