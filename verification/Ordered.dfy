/** Finite sets of numbers listed in increasing order, as a Rust `BTreeMap`
    iterates its keys and `sort_unstable` leaves a vector. */
module Ordered {
  lemma {:induction false} MinExists(s: set<nat>)
    requires s != {}
    ensures exists x :: x in s && forall y :: y in s ==> x <= y
  {
    var x :| x in s;
    if s != {x} {
      MinExists(s - {x});
      var m :| m in s - {x} && forall y :: y in s - {x} ==> m <= y;
      assert forall y :: y in s ==> y == x || y in s - {x};
      var least := if m <= x then m else x;
      assert least in s && forall y :: y in s ==> least <= y;
    }
  }

  function Min(s: set<nat>): (x: nat)
    requires s != {}
    ensures x in s && forall y :: y in s ==> x <= y
  {
    MinExists(s);
    var x :| x in s && forall y :: y in s ==> x <= y;
    x
  }

  function Sorted(s: set<nat>): (vs: seq<nat>)
    ensures forall v :: v in vs <==> v in s
    ensures forall i, j :: 0 <= i < j < |vs| ==> vs[i] < vs[j]
  {
    if s == {} then [] else [Min(s)] + Sorted(s - {Min(s)})
  }
}
