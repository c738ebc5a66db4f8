/** What every run of the synchronisation protocol keeps, and what follows for
    receivers (src/crdt_peer_sync.rs, src/runtime/distributed.rs). */
module FrontierInvariant {
  import opened Crdt
  import opened Ordered
  import opened Frontiers
  import opened FrontierProtocol

  // ----- the invariant -----

  /** Every update of `x` is in `y`, or else already in `acked`. */
  predicate Subsumed(x: State, acked: State, y: State) {
    forall id :: id in x ==>
      if id in y then Leq(x[id], y[id]) else id in acked && Leq(x[id], acked[id])
  }

  predicate Under(acked: State, y: State) {
    forall id :: id in y && id in acked ==> Leq(acked[id], y[id])
  }

  predicate PendingOk(kinds: nat -> Kind, f: PeerFrontier, local: State, next: nat, b: nat)
    requires b in f.pending
  {
    && f.lastAcked < b < next
    && WellKinded(kinds, f.pending[b]) && Below(f.pending[b], local) && Under(f.acknowledged, f.pending[b])
  }

  predicate FrontierOk(kinds: nat -> Kind, f: PeerFrontier, local: State, next: nat, limit: nat) {
    && f.lastAcked < next && |f.pending| <= limit
    && WellKinded(kinds, f.acknowledged) && Below(f.acknowledged, local)
    && (forall b :: b in f.pending ==> PendingOk(kinds, f, local, next, b))
    && (forall b, c :: b in f.pending && c in f.pending && b < c ==>
          Subsumed(f.pending[b], f.acknowledged, f.pending[c]))
  }

  predicate SentOk(f: PeerFrontier, next: nat, batch: Batch) {
    batch.id < next && (batch.id in f.pending ==> Sufficient(batch.ops, f.pending[batch.id], f.acknowledged))
  }

  predicate AckOk(f: PeerFrontier, next: nat, trusted: bool, r: State, b: nat) {
    b < next && (trusted && b in f.pending ==> Below(f.pending[b], r))
  }

  predicate PeerOk(kinds: nat -> Kind, sys: System, p: nat) {
    var f, next, r := Frontier(sys.table, p), sys.table.nextBatchId, Replica(sys, p);
    && FrontierOk(kinds, f, sys.local, next, sys.table.maxPending)
    && (Trusted(sys, p) ==> Below(f.acknowledged, r))
    && WellKinded(kinds, r)
    && (forall m :: m in sys.sent && m.peer == p ==> SentOk(f, next, m.batch))
    && (forall a :: a in sys.acks && a.peer == p ==> AckOk(f, next, Trusted(sys, p), r, a.batchId))
  }

  ghost predicate Inv(kinds: nat -> Kind, sys: System) {
    && sys.table.maxPending >= 1 && sys.table.nextBatchId >= 1 && WellKinded(kinds, sys.local)
    && (forall m :: m in sys.sent ==> OpsKinded(kinds, m.batch.ops) && OpsBelow(m.batch.ops, sys.local))
    && (forall p :: PeerOk(kinds, sys, p))
  }

  // ----- peers a step does not concern -----

  lemma {:induction false} FrontierOkGrows(kinds: nat -> Kind, f: PeerFrontier, local: State, next: nat, limit: nat, local': State, next': nat)
    requires FrontierOk(kinds, f, local, next, limit) && Below(local, local') && next <= next'
    ensures FrontierOk(kinds, f, local', next', limit)
  {
    hide Leq;
    BelowTransitive(f.acknowledged, local, local');
    forall b | b in f.pending
      ensures PendingOk(kinds, f, local', next', b)
    {
      assert PendingOk(kinds, f, local, next, b);
      BelowTransitive(f.pending[b], local, local');
    }
  }

  lemma {:induction false} PeerFrame(kinds: nat -> Kind, sys: System, sys': System, p: nat)
    requires PeerOk(kinds, sys, p)
    requires Frontier(sys'.table, p) == Frontier(sys.table, p) && Replica(sys', p) == Replica(sys, p)
    requires Below(sys.local, sys'.local) && sys.table.nextBatchId <= sys'.table.nextBatchId
    requires sys'.table.maxPending == sys.table.maxPending
    requires forall m :: m in sys'.sent && m.peer == p ==> m in sys.sent
    requires forall a :: a in sys'.acks && a.peer == p ==> a in sys.acks
    requires Trusted(sys', p) ==> Trusted(sys, p)
    ensures PeerOk(kinds, sys', p)
  {
    hide FrontierOk, Below, Sufficient, WellKinded, Trusted;
    FrontierOkGrows(kinds, Frontier(sys.table, p), sys.local, sys.table.nextBatchId, sys.table.maxPending,
      sys'.local, sys'.table.nextBatchId);
  }

  // ----- generating -----

  lemma {:induction false} RepresentedSubsumes(kinds: nat -> Kind, f: PeerFrontier, local: State, next: nat, limit: nat, b: nat)
    requires FrontierOk(kinds, f, local, next, limit) && WellKinded(kinds, local) && b in f.pending
    ensures Subsumed(f.pending[b], f.acknowledged, Represented(local, f.acknowledged))
  {
    var x, acked := f.pending[b], f.acknowledged;
    assert PendingOk(kinds, f, local, next, b);
    forall id | id in x && !Needs(local, acked, id)
      ensures id in acked && Leq(x[id], acked[id])
    {
      DeltaExact(local[id], acked[id], acked[id]);
      LeqTransitive(x[id], local[id], acked[id]);
    }
  }

  lemma {:induction false} RepresentedOk(kinds: nat -> Kind, local: State, acked: State)
    requires WellKinded(kinds, local) && Below(acked, local)
    ensures WellKinded(kinds, Represented(local, acked)) && Below(Represented(local, acked), local)
    ensures Under(acked, Represented(local, acked))
  {
    hide Leq, DeltaSince;
    BelowReflexive(local);
  }

  function AfterSync(f: PeerFrontier, local: State, next: nat, limit: nat): PeerFrontier {
    f.(pending := Evict(f.pending[next := Represented(local, f.acknowledged)], limit))
  }

  lemma {:induction false} AfterSyncPending(f: PeerFrontier, local: State, next: nat, limit: nat)
    ensures var g := AfterSync(f, local, next, limit);
            && |g.pending| <= limit
            && forall b :: b in g.pending ==>
                 (b == next && g.pending[b] == Represented(local, f.acknowledged))
                 || (b != next && b in f.pending && g.pending[b] == f.pending[b])
  {
    hide Represented;
    EvictKeepsNewest(f.pending[next := Represented(local, f.acknowledged)], limit);
  }

  lemma {:induction false} SyncKeepsFrontier(kinds: nat -> Kind, f: PeerFrontier, local: State, next: nat, limit: nat)
    requires FrontierOk(kinds, f, local, next, limit) && WellKinded(kinds, local)
    ensures FrontierOk(kinds, AfterSync(f, local, next, limit), local, next + 1, limit)
  {
    hide Leq, Below, Under, Subsumed, WellKinded, Represented, AfterSync;
    var g, acked := AfterSync(f, local, next, limit), f.acknowledged;
    assert g.acknowledged == f.acknowledged && g.lastAcked == f.lastAcked by { AfterSyncRest(f, local, next, limit); }
    AfterSyncPending(f, local, next, limit);
    RepresentedOk(kinds, local, acked);
    forall b | b in g.pending
      ensures PendingOk(kinds, g, local, next + 1, b)
    {
      assert b in f.pending ==> PendingOk(kinds, f, local, next, b);
    }
    forall b, c | b in g.pending && c in g.pending && b < c
      ensures Subsumed(g.pending[b], acked, g.pending[c])
    {
      assert c in f.pending ==> PendingOk(kinds, f, local, next, c);
      assert b in f.pending;
      RepresentedSubsumes(kinds, f, local, next, limit, b);
    }
  }

  lemma {:induction false} AfterSyncRest(f: PeerFrontier, local: State, next: nat, limit: nat)
    ensures var g := AfterSync(f, local, next, limit); g.acknowledged == f.acknowledged && g.lastAcked == f.lastAcked
  {
    hide Evict, Represented;
  }

  lemma {:induction false} SyncKeepsPeer(kinds: nat -> Kind, sys: System, p: nat)
    requires Inv(kinds, sys) && GenerateOutcome(sys.table, sys.local, p).Emitted?
    ensures PeerOk(kinds, Transmit(sys, p), p)
  {
    hide Below, WellKinded, FrontierOk, Represented, BatchOps, Sufficient, OpsKinded, OpsBelow, AfterSync;
    var f, next, limit := Frontier(sys.table, p), sys.table.nextBatchId, sys.table.maxPending;
    var sys', g := Transmit(sys, p), AfterSync(f, sys.local, next, limit);
    assert PeerOk(kinds, sys, p);
    assert Frontier(sys'.table, p) == g by { SyncedFrontier(sys, p); }
    AfterSyncRest(f, sys.local, next, limit);
    AfterSyncPending(f, sys.local, next, limit);
    SyncKeepsFrontier(kinds, f, sys.local, next, limit);
    assert WellKinded(kinds, f.acknowledged) by { AckedKinded(kinds, f, sys.local, next, limit); }
    FreshBatch(kinds, sys.local, f.acknowledged);
    forall m | m in sys'.sent && m.peer == p
      ensures SentOk(g, next + 1, m.batch)
    {
      assert m in sys.sent ==> SentOk(f, next, m.batch);
    }
    forall a | a in sys'.acks && a.peer == p
      ensures AckOk(g, next + 1, Trusted(sys', p), Replica(sys', p), a.batchId)
    {
      assert AckOk(f, next, Trusted(sys, p), Replica(sys, p), a.batchId);
    }
  }

  lemma {:induction false} AckedKinded(kinds: nat -> Kind, f: PeerFrontier, local: State, next: nat, limit: nat)
    requires FrontierOk(kinds, f, local, next, limit)
    ensures WellKinded(kinds, f.acknowledged) && Below(f.acknowledged, local)
  {
  }

  lemma {:induction false} SyncedFrontier(sys: System, p: nat)
    requires GenerateOutcome(sys.table, sys.local, p).Emitted?
    ensures Frontier(Transmit(sys, p).table, p) ==
            AfterSync(Frontier(sys.table, p), sys.local, sys.table.nextBatchId, sys.table.maxPending)
  {
    hide Evict, Represented, BatchOps;
  }

  // ----- acknowledging -----

  function AfterAck(f: PeerFrontier, b: nat): PeerFrontier
    requires b in f.pending
  {
    PeerFrontier(f.acknowledged + f.pending[b], Later(f.pending, b), b)
  }

  /** An accepted acknowledgement only adds knowledge, and the older batches
      it discards could have added nothing more. */
  lemma {:induction false} AckAdvances(kinds: nat -> Kind, f: PeerFrontier, local: State, next: nat, limit: nat, b: nat)
    requires FrontierOk(kinds, f, local, next, limit) && b in f.pending
    ensures Below(f.acknowledged, AfterAck(f, b).acknowledged)
    ensures Below(f.pending[b], AfterAck(f, b).acknowledged)
    ensures forall c :: c in f.pending && c < b ==> Below(f.pending[c], AfterAck(f, b).acknowledged)
  {
    var acked, y, more := f.acknowledged, f.pending[b], AfterAck(f, b).acknowledged;
    assert PendingOk(kinds, f, local, next, b);
    BelowReflexive(acked);
    BelowReflexive(y);
    forall id | id in acked
      ensures id in more && Leq(acked[id], more[id])
    {
    }
    forall c | c in f.pending && c < b
      ensures Below(f.pending[c], more)
    {
      assert Subsumed(f.pending[c], acked, y);
    }
  }

  lemma {:induction false} AckKeepsUnder(f: PeerFrontier, b: nat, c: nat)
    requires b in f.pending && c in f.pending
    requires Under(f.acknowledged, f.pending[c]) && Subsumed(f.pending[b], f.acknowledged, f.pending[c])
    ensures Under(AfterAck(f, b).acknowledged, f.pending[c])
  {
    hide Leq;
  }

  lemma {:induction false} AckKeepsBounds(kinds: nat -> Kind, f: PeerFrontier, local: State, b: nat)
    requires b in f.pending && WellKinded(kinds, f.acknowledged) && WellKinded(kinds, f.pending[b])
    requires Below(f.acknowledged, local) && Below(f.pending[b], local)
    ensures WellKinded(kinds, AfterAck(f, b).acknowledged) && Below(AfterAck(f, b).acknowledged, local)
  {
    hide Leq;
  }

  lemma {:induction false} AckKeepsFrontier(kinds: nat -> Kind, f: PeerFrontier, local: State, next: nat, limit: nat, b: nat)
    requires FrontierOk(kinds, f, local, next, limit) && b in f.pending
    ensures FrontierOk(kinds, AfterAck(f, b), local, next, limit)
  {
    hide Leq, Below, WellKinded, Under, Subsumed;
    var g, y := AfterAck(f, b), f.pending[b];
    AckAdvances(kinds, f, local, next, limit, b);
    assert PendingOk(kinds, f, local, next, b);
    AckKeepsBounds(kinds, f, local, b);
    LaterSmaller(f.pending, b);
    forall c | c in g.pending
      ensures PendingOk(kinds, g, local, next, c)
    {
      assert PendingOk(kinds, f, local, next, c);
      AckKeepsUnder(f, b, c);
    }
    forall c, d | c in g.pending && d in g.pending && c < d
      ensures Subsumed(g.pending[c], g.acknowledged, g.pending[d])
    {
      SubsumedMonotone(f.pending[c], f.acknowledged, f.pending[d], g.acknowledged);
    }
  }

  lemma {:induction false} LaterSmaller(pending: map<nat, State>, b: nat)
    ensures |Later(pending, b)| <= |pending|
  {
    var later := Later(pending, b);
    assert later.Keys <= pending.Keys;
    SubsetSize(later.Keys, pending.Keys);
  }

  lemma {:induction false} SubsetSize(a: set<nat>, b: set<nat>)
    requires a <= b
    ensures |a| <= |b|
  {
    if a != {} {
      var x :| x in a;
      SubsetSize(a - {x}, b - {x});
    }
  }

  lemma {:induction false} SubsumedMonotone(x: State, acked: State, y: State, more: State)
    requires Subsumed(x, acked, y) && Below(acked, more)
    ensures Subsumed(x, more, y)
  {
    forall id | id in x && id !in y
      ensures id in more && Leq(x[id], more[id])
    {
      LeqTransitive(x[id], acked[id], more[id]);
    }
  }

  function Acked(sys: System, p: nat, b: nat): System { sys.(table := Acknowledged(sys.table, p, b)) }

  lemma {:induction false} AckKeepsPeer(kinds: nat -> Kind, sys: System, p: nat, b: nat)
    requires PeerOk(kinds, sys, p) && p in sys.table.peers && Accepts(Frontier(sys.table, p), b)
    requires Trusted(sys, p) ==> Below(Frontier(sys.table, p).pending[b], Replica(sys, p))
    ensures PeerOk(kinds, Acked(sys, p, b), p)
  {
    hide Below, WellKinded, FrontierOk, Sufficient, AfterAck, Trusted;
    var r, next := Replica(sys, p), sys.table.nextBatchId;
    var f, limit := Frontier(sys.table, p), sys.table.maxPending;
    var sys', g := Acked(sys, p, b), AfterAck(f, b);
    assert Frontier(sys'.table, p) == g && g.pending == Later(f.pending, b) by { AckedFrontier(sys, p, b); }
    assert Trusted(sys', p) == Trusted(sys, p) by { AckedTrust(sys, p, b); }
    AckKeepsFrontier(kinds, f, sys.local, next, limit, b);
    AckAdvances(kinds, f, sys.local, next, limit, b);
    if Trusted(sys, p) { UnionBelow(f, b, r); }
    forall m | m in sys'.sent && m.peer == p
      ensures SentOk(g, next, m.batch)
    {
      assert SentOk(f, next, m.batch);
      if m.batch.id in g.pending {
        SufficientMonotone(m.batch.ops, f.pending[m.batch.id], f.acknowledged, g.acknowledged);
      }
    }
    forall x | x in sys'.acks && x.peer == p
      ensures AckOk(g, next, Trusted(sys', p), r, x.batchId)
    {
      assert AckOk(f, next, Trusted(sys, p), r, x.batchId);
    }
  }

  lemma {:induction false} AckedTrust(sys: System, p: nat, b: nat)
    ensures Trusted(Acked(sys, p, b), p) == Trusted(sys, p)
  {
  }

  lemma {:induction false} AckedFrontier(sys: System, p: nat, b: nat)
    requires p in sys.table.peers && Accepts(Frontier(sys.table, p), b)
    ensures var g := AfterAck(Frontier(sys.table, p), b);
            && Frontier(Acked(sys, p, b).table, p) == g
            && g.pending == Later(Frontier(sys.table, p).pending, b)
  {
  }

  /** On an untracked transport the new batch is acknowledged at once. */
  lemma {:induction false} UntrackedSyncKeepsPeer(kinds: nat -> Kind, sys: System, p: nat)
    requires Inv(kinds, sys) && GenerateOutcome(sys.table, sys.local, p).Emitted? && p in sys.untracked
    ensures PeerOk(kinds, Next(sys, Sync(p)), p)
  {
    hide PeerOk, Represented, Evict, BatchOps, WellKinded, Below;
    SyncKeepsPeer(kinds, sys, p);
    var mid, b := Transmit(sys, p), sys.table.nextBatchId;
    assert Next(sys, Sync(p)) == Acked(mid, p, b);
    if Accepts(Frontier(mid.table, p), b) {
      AckKeepsPeer(kinds, mid, p, b);
    } else {
      IgnoredAck(kinds, mid, p, b);
    }
  }

  lemma {:induction false} UnionBelow(f: PeerFrontier, b: nat, r: State)
    requires b in f.pending && Below(f.acknowledged, r) && Below(f.pending[b], r)
    ensures Below(AfterAck(f, b).acknowledged, r)
  {
    hide Leq;
  }

  // ----- receiving -----

  lemma {:induction false} DeliverKeepsPeer(kinds: nat -> Kind, sys: System, m: Message)
    requires Inv(kinds, sys) && m in sys.sent
    ensures PeerOk(kinds, Next(sys, Deliver(m)), m.peer)
  {
    hide Below, WellKinded, FrontierOk, Sufficient, OpsKinded, OpsBelow, ApplyOps;
    var p, r, next, f := m.peer, Replica(sys, m.peer), sys.table.nextBatchId, Frontier(sys.table, m.peer);
    var sys' := Next(sys, Deliver(m));
    var r' := Replica(sys', p);
    assert PeerOk(kinds, sys, p);
    assert SentOk(f, next, m.batch);
    assert Trusted(sys', p) == Trusted(sys, p);
    ApplyOpsGrows(kinds, r, m.batch.ops);
    if Trusted(sys, p) { BelowTransitive(f.acknowledged, r, r'); }
    forall a | a in sys'.acks && a.peer == p
      ensures AckOk(f, next, Trusted(sys', p), r', a.batchId)
    {
      var b := a.batchId;
      if a in sys.acks {
        assert AckOk(f, next, Trusted(sys, p), r, b);
        if Trusted(sys, p) && b in f.pending { BelowTransitive(f.pending[b], r, r'); }
      } else if Trusted(sys, p) && b in f.pending {
        assert WellKinded(kinds, f.pending[b]) by { PendingKinded(kinds, f, sys.local, next, sys.table.maxPending, b); }
        SufficientDelivers(kinds, r, m.batch.ops, f.pending[b], f.acknowledged);
      }
    }
  }

  lemma {:induction false} PendingKinded(kinds: nat -> Kind, f: PeerFrontier, local: State, next: nat, limit: nat, b: nat)
    requires FrontierOk(kinds, f, local, next, limit) && b in f.pending
    ensures WellKinded(kinds, f.pending[b])
  {
    assert PendingOk(kinds, f, local, next, b);
  }

  lemma {:induction false} ReplicaUpdateKeepsPeer(kinds: nat -> Kind, sys: System, p: nat, s: State)
    requires PeerOk(kinds, sys, p) && Below(Replica(sys, p), s) && WellKinded(kinds, s)
    ensures PeerOk(kinds, Next(sys, ReplicaUpdate(p, s)), p)
  {
    hide Below, WellKinded, FrontierOk, Sufficient;
    var r, f, next := Replica(sys, p), Frontier(sys.table, p), sys.table.nextBatchId;
    var sys' := Next(sys, ReplicaUpdate(p, s));
    assert Replica(sys', p) == s && Trusted(sys', p) == Trusted(sys, p);
    if Trusted(sys, p) { BelowTransitive(f.acknowledged, r, s); }
    forall a | a in sys'.acks && a.peer == p
      ensures AckOk(f, next, Trusted(sys', p), s, a.batchId)
    {
      assert AckOk(f, next, Trusted(sys, p), r, a.batchId);
      if Trusted(sys, p) && a.batchId in f.pending { BelowTransitive(f.pending[a.batchId], r, s); }
    }
  }

  lemma {:induction false} CrashKeepsPeer(kinds: nat -> Kind, sys: System, p: nat)
    requires PeerOk(kinds, sys, p)
    ensures PeerOk(kinds, Next(sys, Crash(p)), p)
  {
    hide Below, FrontierOk, Sufficient;
    var f, next := Frontier(sys.table, p), sys.table.nextBatchId;
    var sys' := Next(sys, Crash(p));
    assert Replica(sys', p) == map[] && !Trusted(sys', p);
    forall a | a in sys'.acks && a.peer == p
      ensures AckOk(f, next, false, map[], a.batchId)
    {
      assert AckOk(f, next, Trusted(sys, p), Replica(sys, p), a.batchId);
    }
  }

  lemma {:induction false} UnknownPeerOk(kinds: nat -> Kind, local: State, next: nat, limit: nat, r: State)
    requires next >= 1
    ensures FrontierOk(kinds, UNKNOWN_PEER, local, next, limit) && Below(UNKNOWN_PEER.acknowledged, r)
  {
  }

  /** Whatever the peer holds, an unknown peer is taken to hold nothing. */
  lemma {:induction false} ForgetKeepsPeer(kinds: nat -> Kind, sys: System, p: nat)
    requires Inv(kinds, sys)
    ensures PeerOk(kinds, Next(sys, Forget(p)), p)
  {
    hide FrontierOk, Below, WellKinded, Sufficient, Trusted;
    var sys', next, r := Next(sys, Forget(p)), sys.table.nextBatchId, Replica(sys, p);
    assert PeerOk(kinds, sys, p);
    UnknownPeerOk(kinds, sys.local, next, sys.table.maxPending, r);
    assert Frontier(sys'.table, p) == UNKNOWN_PEER && Replica(sys', p) == r;
    forall m | m in sys'.sent && m.peer == p
      ensures SentOk(UNKNOWN_PEER, next, m.batch)
    {
      assert SentOk(Frontier(sys.table, p), next, m.batch);
    }
    forall a | a in sys'.acks && a.peer == p
      ensures AckOk(UNKNOWN_PEER, next, Trusted(sys', p), r, a.batchId)
    {
      assert AckOk(Frontier(sys.table, p), next, Trusted(sys, p), r, a.batchId);
    }
  }

  // ----- every step keeps the invariant -----

  lemma {:induction false} OpsBelowGrows(ops: seq<DeltaOp>, s: State, s': State)
    requires OpsBelow(ops, s) && Below(s, s')
    ensures OpsBelow(ops, s')
  {
    forall op | op in ops
      ensures op.id in s' && Leq(op.entry, s'[op.id])
    {
      LeqTransitive(op.entry, s[op.id], s'[op.id]);
    }
  }

  /** The table entry of the peer that a step concerns, if any. */
  predicate Concerns(step: Step, p: nat) {
    match step
    case LocalUpdate(_) => false
    case ReplicaUpdate(q, _) => p == q
    case Sync(q) => p == q
    case Deliver(m) => p == m.peer
    case AckArrives(a) => p == a.peer
    case Crash(q) => p == q
    case Forget(q) => p == q
  }

  lemma {:induction false} StepFrame(kinds: nat -> Kind, sys: System, step: Step, p: nat)
    requires PeerOk(kinds, sys, p) && Enabled(kinds, sys, step) && !Concerns(step, p)
    ensures PeerOk(kinds, Next(sys, step), p)
  {
    hide PeerOk, Represented, Evict, BatchOps, ApplyOps, Below;
    BelowReflexive(sys.local);
    PeerFrame(kinds, sys, Next(sys, step), p);
  }

  lemma {:induction false} StepConcerned(kinds: nat -> Kind, sys: System, step: Step, p: nat)
    requires Inv(kinds, sys) && Enabled(kinds, sys, step) && Concerns(step, p)
    ensures PeerOk(kinds, Next(sys, step), p)
  {
    hide PeerOk, Represented, Evict, BatchOps, ApplyOps, Below;
    assert PeerOk(kinds, sys, p);
    match step
    case ReplicaUpdate(_, s) => ReplicaUpdateKeepsPeer(kinds, sys, p, s);
    case Sync(_) =>
      if GenerateOutcome(sys.table, sys.local, p).Emitted? {
        if p in sys.untracked { UntrackedSyncKeepsPeer(kinds, sys, p); } else { SyncKeepsPeer(kinds, sys, p); }
      } else {
        BelowReflexive(sys.local);
        PeerFrame(kinds, sys, Next(sys, step), p);
      }
    case Deliver(m) => DeliverKeepsPeer(kinds, sys, m);
    case AckArrives(a) =>
      assert Next(sys, step) == Acked(sys, p, a.batchId);
      if p in sys.table.peers && Accepts(Frontier(sys.table, p), a.batchId) {
        AckTruth(kinds, sys, a);
        AckKeepsPeer(kinds, sys, p, a.batchId);
      } else {
        IgnoredAck(kinds, sys, p, a.batchId);
      }
    case Crash(_) => CrashKeepsPeer(kinds, sys, p);
    case Forget(_) => ForgetKeepsPeer(kinds, sys, p);
  }

  lemma {:induction false} AckTruth(kinds: nat -> Kind, sys: System, a: Ack)
    requires PeerOk(kinds, sys, a.peer) && a in sys.acks && a.batchId in Frontier(sys.table, a.peer).pending
    ensures Trusted(sys, a.peer) ==> Below(Frontier(sys.table, a.peer).pending[a.batchId], Replica(sys, a.peer))
  {
    hide FrontierOk, Below, Trusted;
    assert AckOk(Frontier(sys.table, a.peer), sys.table.nextBatchId, Trusted(sys, a.peer), Replica(sys, a.peer), a.batchId);
  }

  /** An acknowledgement that is not for a pending batch changes nothing. */
  lemma {:induction false} IgnoredAck(kinds: nat -> Kind, sys: System, p: nat, b: nat)
    requires PeerOk(kinds, sys, p) && !Accepts(Frontier(sys.table, p), b)
    ensures Acknowledged(sys.table, p, b) == sys.table
    ensures PeerOk(kinds, Acked(sys, p, b), p)
  {
    hide Below, Sufficient, WellKinded, Under, Subsumed, Trusted;
    var t, f := sys.table, Frontier(sys.table, p);
    if p in t.peers && b <= f.lastAcked {
      assert b !in f.pending by {
        assert b in f.pending ==> PendingOk(kinds, f, sys.local, t.nextBatchId, b);
      }
      assert f.pending - {b} == f.pending;
      assert t.peers[p := f] == t.peers;
    }
    assert Acked(sys, p, b) == sys;
  }

  lemma {:induction false} SyncedMessages(kinds: nat -> Kind, sys: System, p: nat, m: Message)
    requires Inv(kinds, sys) && m in Next(sys, Sync(p)).sent
    ensures OpsKinded(kinds, m.batch.ops) && OpsBelow(m.batch.ops, sys.local)
  {
    hide Below, WellKinded, Represented, BatchOps, Sufficient, OpsKinded, OpsBelow;
    if m !in sys.sent {
      assert PeerOk(kinds, sys, p);
      AckedKinded(kinds, Frontier(sys.table, p), sys.local, sys.table.nextBatchId, sys.table.maxPending);
      FreshBatch(kinds, sys.local, Frontier(sys.table, p).acknowledged);
    }
  }

  lemma {:induction false} StepKeepsInv(kinds: nat -> Kind, sys: System, step: Step)
    requires Inv(kinds, sys) && Enabled(kinds, sys, step)
    ensures Inv(kinds, Next(sys, step))
  {
    hide PeerOk, Represented, Evict, BatchOps, ApplyOps, Below, OpsKinded, OpsBelow, WellKinded;
    var sys' := Next(sys, step);
    forall p
      ensures PeerOk(kinds, sys', p)
    {
      assert PeerOk(kinds, sys, p);
      if Concerns(step, p) { StepConcerned(kinds, sys, step, p); } else { StepFrame(kinds, sys, step, p); }
    }
    forall m | m in sys'.sent
      ensures OpsKinded(kinds, m.batch.ops) && OpsBelow(m.batch.ops, sys'.local)
    {
      match step {
        case Sync(p) => SyncedMessages(kinds, sys, p, m);
        case LocalUpdate(s) => OpsBelowGrows(m.batch.ops, sys.local, s);
        case _ =>
      }
    }
  }

  lemma {:induction false} InitialInv(kinds: nat -> Kind, sys: System)
    requires Initial(sys)
    ensures Inv(kinds, sys)
  {
    forall p
      ensures PeerOk(kinds, sys, p)
    {
    }
  }

  /** Every reachable state satisfies the invariant. */
  lemma {:induction false} RunKeepsInv(kinds: nat -> Kind, sys: System, steps: seq<Step>)
    requires Inv(kinds, sys) && ValidRun(kinds, sys, steps)
    ensures Inv(kinds, After(sys, steps))
    decreases |steps|
  {
    hide Inv, Enabled, Next;
    if steps != [] {
      StepKeepsInv(kinds, sys, steps[0]);
      RunKeepsInv(kinds, Next(sys, steps[0]), steps[1..]);
    }
  }
}
