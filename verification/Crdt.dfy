/** Replicated data types as join-semilattices (src/runtime/crdt.rs) and the
    table of replicas that a node keeps (src/runtime/crdt_manager.rs). */
module Crdt {
  import opened Options
  /** Per-node contributions; a node that is absent has contributed nothing. */
  type Counts = map<nat, nat>

  datatype Entry =
    | GCounter(counts: Counts)
    | PNCounter(increments: Counts, decrements: Counts)
    | GSet(elements: set<string>)

  datatype Kind = GCounterKind | PNCounterKind | GSetKind

  function KindOf(e: Entry): Kind {
    match e
    case GCounter(_) => GCounterKind
    case PNCounter(_, _) => PNCounterKind
    case GSet(_) => GSetKind
  }

  function Count(c: Counts, node: nat): nat { if node in c then c[node] else 0 }

  function Max(a: nat, b: nat): nat { if a < b then b else a }

  // ----- merge and delta -----

  function MergeCounts(a: Counts, b: Counts): Counts {
    map n | n in a.Keys + b.Keys :: Max(Count(a, n), Count(b, n))
  }

  function CountsDelta(a: Counts, base: Counts): Option<Counts> {
    var grown := map n | n in a && a[n] > Count(base, n) :: a[n];
    if grown == map[] then None else Some(grown)
  }

  /** `merge_entry`: entries of different kinds are left alone. */
  function Merge(a: Entry, b: Entry): Entry {
    match (a, b)
    case (GCounter(x), GCounter(y)) => GCounter(MergeCounts(x, y))
    case (PNCounter(i, d), PNCounter(j, e)) => PNCounter(MergeCounts(i, j), MergeCounts(d, e))
    case (GSet(x), GSet(y)) => GSet(x + y)
    case _ => a
  }

  /** `delta_since`: what `a` holds beyond `base`; the whole of `a` when the
      two are not of one kind. */
  function DeltaSince(a: Entry, base: Entry): Option<Entry> {
    match (a, base)
    case (GCounter(x), GCounter(y)) =>
      (match CountsDelta(x, y) case None => None case Some(d) => Some(GCounter(d)))
    case (PNCounter(i, d), PNCounter(j, e)) =>
      (match (CountsDelta(i, j), CountsDelta(d, e))
       case (None, None) => None
       case (inc, dec) => Some(PNCounter(if inc.Some? then inc.value else map[], if dec.Some? then dec.value else map[])))
    case (GSet(x), GSet(y)) => if x - y == {} then None else Some(GSet(x - y))
    case _ => Some(a)
  }

  // ----- the order the merge is a join of -----

  predicate CountsLeq(a: Counts, b: Counts) {
    forall n :: n in a ==> a[n] <= Count(b, n)
  }

  /** `b` has absorbed every update recorded in `a`. */
  predicate Leq(a: Entry, b: Entry) {
    match (a, b)
    case (GCounter(x), GCounter(y)) => CountsLeq(x, y)
    case (PNCounter(i, d), PNCounter(j, e)) => CountsLeq(i, j) && CountsLeq(d, e)
    case (GSet(x), GSet(y)) => x <= y
    case _ => false
  }

  lemma {:induction false} LeqReflexive(a: Entry)
    ensures Leq(a, a)
  {
  }

  lemma {:induction false} LeqTransitive(a: Entry, b: Entry, c: Entry)
    requires Leq(a, b) && Leq(b, c)
    ensures Leq(a, c)
  {
  }

  lemma {:induction false} MergeCountsIsJoin(a: Counts, b: Counts, c: Counts)
    ensures CountsLeq(a, MergeCounts(a, b)) && CountsLeq(b, MergeCounts(a, b))
    ensures CountsLeq(MergeCounts(a, b), c) <==> CountsLeq(a, c) && CountsLeq(b, c)
  {
    var m := MergeCounts(a, b);
    assert forall n :: n in m ==> m[n] == Count(a, n) || m[n] == Count(b, n);
    assert forall n :: n in a ==> n in m;
    assert forall n :: n in b ==> n in m;
  }

  /** The merge of two entries of one kind is their least upper bound. */
  lemma {:induction false} MergeIsJoin(a: Entry, b: Entry, c: Entry)
    requires KindOf(a) == KindOf(b)
    ensures Leq(a, Merge(a, b)) && Leq(b, Merge(a, b))
    ensures Leq(Merge(a, b), c) <==> Leq(a, c) && Leq(b, c)
  {
    match (a, b)
    case (GCounter(x), GCounter(y)) =>
      MergeCountsIsJoin(x, y, if c.GCounter? then c.counts else map[]);
    case (PNCounter(i, d), PNCounter(j, e)) =>
      MergeCountsIsJoin(i, j, if c.PNCounter? then c.increments else map[]);
      MergeCountsIsJoin(d, e, if c.PNCounter? then c.decrements else map[]);
    case (GSet(x), GSet(y)) =>
  }

  lemma {:induction false} CountsDeltaExact(a: Counts, base: Counts, x: Counts)
    ensures CountsDelta(a, base).None? <==> CountsLeq(a, base)
    ensures CountsDelta(a, base).Some? ==> CountsLeq(CountsDelta(a, base).value, a)
    ensures CountsDelta(a, base).Some? && CountsLeq(base, x) ==>
              CountsLeq(a, MergeCounts(x, CountsDelta(a, base).value))
  {
    var grown := map n | n in a && a[n] > Count(base, n) :: a[n];
    if grown == map[] {
      forall n | n in a
        ensures a[n] <= Count(base, n)
      {
        assert n !in grown;
      }
    } else {
      var n :| n in grown;
      assert a[n] > Count(base, n);
      assert CountsDelta(a, base) == Some(grown);
      if CountsLeq(base, x) {
        var m := MergeCounts(x, grown);
        forall n | n in a
          ensures a[n] <= Count(m, n)
        {
          if n in grown {
            assert n in m;
          } else if n in base {
            assert a[n] <= base[n] <= Count(x, n);
            assert a[n] > 0 ==> n in m;
          }
        }
      }
    }
  }

  /** There is no delta exactly when the base already holds everything, and a
      delta brings any replica that holds the base up to date while saying
      nothing that the sender does not hold. */
  lemma {:induction false} DeltaExact(a: Entry, base: Entry, x: Entry)
    requires KindOf(a) == KindOf(base)
    ensures DeltaSince(a, base).None? <==> Leq(a, base)
    ensures DeltaSince(a, base).Some? ==> Leq(DeltaSince(a, base).value, a)
    ensures DeltaSince(a, base).Some? && Leq(base, x) ==> Leq(a, Merge(x, DeltaSince(a, base).value))
  {
    match (a, base)
    case (GCounter(p), GCounter(q)) =>
      CountsDeltaExact(p, q, if x.GCounter? then x.counts else map[]);
    case (PNCounter(i, d), PNCounter(j, e)) =>
      PNDeltaExact(i, d, j, e, x);
    case (GSet(p), GSet(q)) =>
      assert p - q == {} <==> p <= q by {
        assert forall e :: e in p && e !in q <==> e in p - q;
      }
  }

  lemma {:induction false} PNDeltaExact(i: Counts, d: Counts, j: Counts, e: Counts, x: Entry)
    ensures var delta := DeltaSince(PNCounter(i, d), PNCounter(j, e));
            && (delta.None? <==> CountsLeq(i, j) && CountsLeq(d, e))
            && (delta.Some? ==> Leq(delta.value, PNCounter(i, d)))
            && (delta.Some? && Leq(PNCounter(j, e), x) ==> Leq(PNCounter(i, d), Merge(x, delta.value)))
  {
    var xi := if x.PNCounter? then x.increments else map[];
    var xd := if x.PNCounter? then x.decrements else map[];
    CountsDeltaExact(i, j, xi);
    CountsDeltaExact(d, e, xd);
    if x.PNCounter? && CountsLeq(j, xi) && CountsLeq(i, j) {
      CountsKeptByMerge(i, j, xi);
    }
    if x.PNCounter? && CountsLeq(e, xd) && CountsLeq(d, e) {
      CountsKeptByMerge(d, e, xd);
    }
  }

  lemma {:induction false} CountsKeptByMerge(a: Counts, base: Counts, x: Counts)
    requires CountsLeq(a, base) && CountsLeq(base, x)
    ensures CountsLeq(a, MergeCounts(x, map[]))
  {
    MergeCountsIsJoin(x, map[], x);
    var m := MergeCounts(x, map[]);
    forall n | n in a
      ensures a[n] <= Count(m, n)
    {
      if n in base {
        assert a[n] <= base[n] <= Count(x, n);
      }
    }
  }

  /** The two entries agree on every contribution of every node. */
  ghost predicate SameValue(a: Entry, b: Entry) {
    match (a, b)
    case (GCounter(x), GCounter(y)) => forall n :: Count(x, n) == Count(y, n)
    case (PNCounter(i, d), PNCounter(j, e)) =>
      (forall n :: Count(i, n) == Count(j, n)) && (forall n :: Count(d, n) == Count(e, n))
    case (GSet(x), GSet(y)) => x == y
    case _ => false
  }

  lemma {:induction false} LeqAntisymmetric(a: Entry, b: Entry)
    ensures Leq(a, b) && Leq(b, a) <==> SameValue(a, b)
  {
    match (a, b)
    case (GCounter(x), GCounter(y)) => CountsAntisymmetric(x, y);
    case (PNCounter(i, d), PNCounter(j, e)) => CountsAntisymmetric(i, j); CountsAntisymmetric(d, e);
    case _ =>
  }

  lemma {:induction false} CountsAntisymmetric(a: Counts, b: Counts)
    ensures CountsLeq(a, b) && CountsLeq(b, a) <==> forall n :: Count(a, n) == Count(b, n)
  {
    if CountsLeq(a, b) && CountsLeq(b, a) {
      forall n
        ensures Count(a, n) == Count(b, n)
      {
        if n in a { assert a[n] <= Count(b, n); }
        if n in b { assert b[n] <= Count(a, n); }
      }
    }
    if forall n :: Count(a, n) == Count(b, n) {
      forall n | n in a
        ensures a[n] <= Count(b, n)
      {
        assert Count(a, n) == Count(b, n);
      }
      forall n | n in b
        ensures b[n] <= Count(a, n)
      {
        assert Count(a, n) == Count(b, n);
      }
    }
  }

  // ----- replica tables -----

  type State = map<nat, Entry>

  predicate Below(a: State, b: State) {
    forall id :: id in a ==> id in b && Leq(a[id], b[id])
  }

  predicate WellKinded(kinds: nat -> Kind, s: State) {
    forall id :: id in s ==> KindOf(s[id]) == kinds(id)
  }

  lemma {:induction false} BelowReflexive(a: State)
    ensures Below(a, a)
  {
    forall id | id in a
      ensures Leq(a[id], a[id])
    {
      LeqReflexive(a[id]);
    }
  }

  lemma {:induction false} BelowTransitive(a: State, b: State, c: State)
    requires Below(a, b) && Below(b, c)
    ensures Below(a, c)
  {
    forall id | id in a
      ensures id in c && Leq(a[id], c[id])
    {
      LeqTransitive(a[id], b[id], c[id]);
    }
  }

  // ----- receiving -----

  datatype DeltaOp = DeltaOp(id: nat, entry: Entry, isDelta: bool)

  /** `apply_delta_op`: merge into a replica of the same kind; a full-state op
      may create the replica, a delta for an unknown id is dropped. */
  function ApplyOp(s: State, op: DeltaOp): State {
    if op.id in s then
      if KindOf(s[op.id]) != KindOf(op.entry) then s
      else s[op.id := Merge(s[op.id], op.entry)]
    else if op.isDelta then s
    else s[op.id := op.entry]
  }

  function ApplyOps(s: State, ops: seq<DeltaOp>): State
    decreases |ops|
  {
    if ops == [] then s else ApplyOps(ApplyOp(s, ops[0]), ops[1..])
  }
}
