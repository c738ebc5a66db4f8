/** What each peer is known to hold of the local replicas
    (src/crdt_peer_sync.rs). */
module Frontiers {
  import opened Options
  import opened Crdt
  import opened Ordered

  const U64_MAX: nat := 0xFFFF_FFFF_FFFF_FFFF

  datatype Batch = Batch(id: nat, ops: seq<DeltaOp>)

  datatype PeerFrontier = PeerFrontier(acknowledged: State, pending: map<nat, State>, lastAcked: nat)

  const UNKNOWN_PEER := PeerFrontier(map[], map[], 0)

  /** The fields of the frontier table as one value. */
  datatype Table = Table(nextBatchId: nat, peers: map<nat, PeerFrontier>, maxPending: nat)

  /** Exhausted stands for the panic at the end of the batch-id space. */
  datatype Outcome = UpToDate | Emitted(batch: Batch) | Exhausted

  function Frontier(t: Table, peer: nat): PeerFrontier {
    if peer in t.peers then t.peers[peer] else UNKNOWN_PEER
  }

  // ----- generating a batch -----

  predicate Needs(s: State, acked: State, id: nat)
    requires id in s
  {
    id in acked ==> DeltaSince(s[id], acked[id]).Some?
  }

  function OpFor(s: State, acked: State, id: nat): DeltaOp
    requires id in s && Needs(s, acked, id)
  {
    if id in acked then DeltaOp(id, DeltaSince(s[id], acked[id]).value, true)
    else DeltaOp(id, s[id], false)
  }

  function OpsFor(s: State, acked: State, ids: seq<nat>): seq<DeltaOp>
    requires forall id :: id in ids ==> id in s
  {
    if ids == [] then []
    else
      var last := ids[|ids| - 1];
      OpsFor(s, acked, ids[..|ids| - 1]) + (if Needs(s, acked, last) then [OpFor(s, acked, last)] else [])
  }

  function BatchOps(s: State, acked: State): seq<DeltaOp> { OpsFor(s, acked, Sorted(s.Keys)) }

  function RepresentedAmong(s: State, acked: State, ids: seq<nat>): State {
    map id | id in s && id in ids && Needs(s, acked, id) :: s[id]
  }

  function Represented(s: State, acked: State): State {
    map id | id in s && Needs(s, acked, id) :: s[id]
  }

  function Evict(pending: map<nat, State>, limit: nat): map<nat, State>
    decreases |pending|
  {
    if |pending| <= limit then pending else Evict(pending - {Min(pending.Keys)}, limit)
  }

  function GenerateOutcome(t: Table, s: State, peer: nat): Outcome {
    var ops := BatchOps(s, Frontier(t, peer).acknowledged);
    if ops == [] then UpToDate
    else if t.nextBatchId == U64_MAX then Exhausted
    else Emitted(Batch(t.nextBatchId, ops))
  }

  function Generated(t: Table, s: State, peer: nat): Table {
    var f := Frontier(t, peer);
    if GenerateOutcome(t, s, peer).Emitted? then
      var pending := Evict(f.pending[t.nextBatchId := Represented(s, f.acknowledged)], t.maxPending);
      t.(nextBatchId := t.nextBatchId + 1, peers := t.peers[peer := f.(pending := pending)])
    else
      t.(peers := t.peers[peer := f])
  }

  // ----- acknowledging and forgetting -----

  predicate Accepts(f: PeerFrontier, batchId: nat) { batchId > f.lastAcked && batchId in f.pending }

  function Later(pending: map<nat, State>, batchId: nat): map<nat, State> {
    map b | b in pending && b > batchId :: pending[b]
  }

  function Acknowledged(t: Table, peer: nat, batchId: nat): Table {
    if peer !in t.peers then t
    else
      var f := t.peers[peer];
      if Accepts(f, batchId) then
        t.(peers := t.peers[peer := PeerFrontier(f.acknowledged + f.pending[batchId], Later(f.pending, batchId), batchId)])
      else if batchId <= f.lastAcked then
        t.(peers := t.peers[peer := f.(pending := f.pending - {batchId})])
      else t
  }

  function Forgotten(t: Table, peer: nat): Table { t.(peers := t.peers - {peer}) }

  lemma {:induction false} CollectStep(s: State, acked: State, ids: seq<nat>, i: nat)
    requires i < |ids| && forall id :: id in ids ==> id in s
    ensures OpsFor(s, acked, ids[..i + 1]) ==
            OpsFor(s, acked, ids[..i]) + (if Needs(s, acked, ids[i]) then [OpFor(s, acked, ids[i])] else [])
    ensures RepresentedAmong(s, acked, ids[..i + 1]) ==
            (if Needs(s, acked, ids[i]) then RepresentedAmong(s, acked, ids[..i])[ids[i] := s[ids[i]]]
             else RepresentedAmong(s, acked, ids[..i]))
  {
    hide DeltaSince;
    assert ids[..i + 1][..i] == ids[..i] && ids[..i + 1] == ids[..i] + [ids[i]];
  }

  lemma {:induction false} CollectNothing(s: State, acked: State)
    ensures OpsFor(s, acked, []) == [] && RepresentedAmong(s, acked, []) == map[]
  {
    hide DeltaSince;
  }

  lemma {:induction false} AllRepresented(s: State, acked: State)
    ensures RepresentedAmong(s, acked, Sorted(s.Keys)) == Represented(s, acked)
  {
    hide DeltaSince;
  }

  method CollectOps(manager: State, acked: State) returns (ops: seq<DeltaOp>, represented: State)
    ensures ops == BatchOps(manager, acked)
    ensures represented == Represented(manager, acked)
  {
    hide DeltaSince, OpsFor, RepresentedAmong;
    ops, represented := [], map[];
    assert OpsFor(manager, acked, []) == [] && RepresentedAmong(manager, acked, []) == map[] by {
      CollectNothing(manager, acked);
    }
    var ids := Sorted(manager.Keys);
    for i := 0 to |ids|
      invariant ops == OpsFor(manager, acked, ids[..i])
      invariant represented == RepresentedAmong(manager, acked, ids[..i])
    {
      var id := ids[i];
      CollectStep(manager, acked, ids, i);
      if id !in acked {
        ops := ops + [DeltaOp(id, manager[id], false)];
        represented := represented[id := manager[id]];
      } else {
        var delta := DeltaSince(manager[id], acked[id]);
        if delta.Some? {
          ops := ops + [DeltaOp(id, delta.value, true)];
          represented := represented[id := manager[id]];
        }
      }
    }
    assert ids[..|ids|] == ids;
    AllRepresented(manager, acked);
  }

  method EvictOldest(pending: map<nat, State>, limit: nat) returns (kept: map<nat, State>)
    ensures kept == Evict(pending, limit)
  {
    kept := pending;
    while |kept| > limit
      invariant Evict(kept, limit) == Evict(pending, limit)
      decreases |kept|
    {
      kept := kept - {Min(kept.Keys)};
    }
  }

  class PeerCrdtFrontiers {
    var nextBatchId: nat
    var peers: map<nat, PeerFrontier>
    const maxPending: nat

    ghost function Value(): Table
      reads this
    {
      Table(nextBatchId, peers, maxPending)
    }

    constructor WithPendingLimit(limit: nat)
      ensures Value() == Table(1, map[], Max(limit, 1))
    {
      nextBatchId := 1;
      peers := map[];
      maxPending := Max(limit, 1);
    }

    method Generate(manager: State, peerId: nat) returns (out: Outcome)
      modifies this
      ensures Value() == Generated(old(Value()), manager, peerId)
      ensures out == GenerateOutcome(old(Value()), manager, peerId)
    {
      hide BatchOps, Represented, Evict;
      if peerId !in peers {
        peers := peers[peerId := UNKNOWN_PEER];
      }
      var peer := peers[peerId];
      var ops, represented := CollectOps(manager, peer.acknowledged);
      if ops == [] {
        return UpToDate;
      }
      if nextBatchId == U64_MAX {
        return Exhausted;
      }
      var batchId := nextBatchId;
      nextBatchId := nextBatchId + 1;
      var pending := EvictOldest(peer.pending[batchId := represented], maxPending);
      peers := peers[peerId := peer.(pending := pending)];
      return Emitted(Batch(batchId, ops));
    }

    method Acknowledge(peerId: nat, batchId: nat) returns (advanced: bool)
      modifies this
      ensures Value() == Acknowledged(old(Value()), peerId, batchId)
      ensures advanced == (peerId in old(peers) && Accepts(old(peers)[peerId], batchId))
    {
      if peerId !in peers {
        return false;
      }
      var peer := peers[peerId];
      if batchId <= peer.lastAcked {
        peers := peers[peerId := peer.(pending := peer.pending - {batchId})];
        return false;
      }
      if batchId !in peer.pending {
        return false;
      }
      var represented := peer.pending[batchId];
      var rest := map b | b in peer.pending - {batchId} && b > batchId :: peer.pending[b];
      assert rest == Later(peer.pending, batchId);
      peers := peers[peerId := PeerFrontier(peer.acknowledged + represented, rest, batchId)];
      return true;
    }

    method ForgetPeer(peerId: nat)
      modifies this
      ensures Value() == Forgotten(old(Value()), peerId)
    {
      peers := peers - {peerId};
    }
  }

  // ----- what the specification functions mean -----

  /** A batch carries one operation per entry the peer is not known to hold. */
  lemma {:induction false} OpsForExact(s: State, acked: State, ids: seq<nat>)
    requires forall id :: id in ids ==> id in s
    ensures forall op :: op in OpsFor(s, acked, ids) <==>
              op.id in ids && Needs(s, acked, op.id) && op == OpFor(s, acked, op.id)
    decreases |ids|
  {
    if ids != [] {
      var last := ids[|ids| - 1];
      assert ids == ids[..|ids| - 1] + [last];
      OpsForExact(s, acked, ids[..|ids| - 1]);
    }
  }

  predicate Ascending(ops: seq<DeltaOp>) { forall i, j :: 0 <= i < j < |ops| ==> ops[i].id < ops[j].id }

  /** Operations are listed by increasing id, so a batch is determined by the
      local state and the acknowledged state. */
  lemma {:induction false} OpsForAscending(s: State, acked: State, ids: seq<nat>)
    requires forall id :: id in ids ==> id in s
    requires forall i, j :: 0 <= i < j < |ids| ==> ids[i] < ids[j]
    ensures Ascending(OpsFor(s, acked, ids))
    decreases |ids|
  {
    hide DeltaSince;
    if ids != [] {
      var front, last := ids[..|ids| - 1], ids[|ids| - 1];
      OpsForAscending(s, acked, front);
      OpsForExact(s, acked, front);
      var ops := OpsFor(s, acked, front);
      forall i | 0 <= i < |ops|
        ensures ops[i].id < last
      {
        assert ops[i] in ops;
        var k :| 0 <= k < |front| && front[k] == ops[i].id;
        assert front[k] == ids[k];
      }
    }
  }

  /** Nothing is generated exactly when every local entry is already covered
      by the acknowledged state. */
  lemma {:induction false} UpToDateIffCovered(kinds: nat -> Kind, t: Table, s: State, peer: nat)
    requires WellKinded(kinds, s) && WellKinded(kinds, Frontier(t, peer).acknowledged)
    ensures GenerateOutcome(t, s, peer).UpToDate? <==> Below(s, Frontier(t, peer).acknowledged)
  {
    var acked := Frontier(t, peer).acknowledged;
    var ids := Sorted(s.Keys);
    OpsForExact(s, acked, ids);
    forall id | id in s && id in acked
      ensures DeltaSince(s[id], acked[id]).None? <==> Leq(s[id], acked[id])
    {
      DeltaExact(s[id], acked[id], s[id]);
    }
    if BatchOps(s, acked) == [] {
      forall id | id in s
        ensures id in acked && Leq(s[id], acked[id])
      {
        assert Needs(s, acked, id) ==> OpFor(s, acked, id) in BatchOps(s, acked);
      }
    } else {
      var op := BatchOps(s, acked)[0];
      assert op in BatchOps(s, acked);
      assert Needs(s, acked, op.id);
    }
  }

  predicate KeepsNewest(pending: map<nat, State>, kept: map<nat, State>) {
    && (forall b :: b in kept ==> b in pending && kept[b] == pending[b])
    && (forall b, c :: b in pending && b !in kept && c in kept ==> b < c)
  }

  lemma {:induction false} DropOldest(pending: map<nat, State>, kept: map<nat, State>)
    requires pending.Keys != {} && KeepsNewest(pending - {Min(pending.Keys)}, kept)
    ensures KeepsNewest(pending, kept)
  {
    var oldest := Min(pending.Keys);
    forall b, c | b in pending && b !in kept && c in kept
      ensures b < c
    {
      assert c in pending - {oldest};
      assert b == oldest || b in pending - {oldest};
    }
  }

  /** Eviction drops only the oldest batches, down to the limit. */
  lemma {:induction false} EvictKeepsNewest(pending: map<nat, State>, limit: nat)
    ensures KeepsNewest(pending, Evict(pending, limit)) && |Evict(pending, limit)| <= limit
    ensures |pending| <= limit ==> Evict(pending, limit) == pending
    decreases |pending|
  {
    if |pending| > limit {
      EvictKeepsNewest(pending - {Min(pending.Keys)}, limit);
      DropOldest(pending, Evict(pending, limit));
    }
  }

  lemma {:induction false} EvictKeepsLast(pending: map<nat, State>, limit: nat, b: nat)
    requires limit >= 1 && b in pending && forall c :: c in pending ==> c <= b
    ensures b in Evict(pending, limit)
    decreases |pending|
  {
    if |pending| > limit {
      var oldest := Min(pending.Keys);
      assert |{b}| == 1 && |pending.Keys| == |pending| > 1;
      EvictKeepsLast(pending - {oldest}, limit, b);
    }
  }
}
