/** Stable sorting and duplicate removal, as Rust's `sort_by` and `dedup` do
    them, with the facts that make a sorted form canonical. */
module Sorting {

  ghost predicate StrictOrder<T(!new)>(lt: (T, T) -> bool) {
    && (forall x {:trigger lt(x, x)} :: !lt(x, x))
    && (forall x, y, z {:trigger lt(x, y), lt(y, z)} :: lt(x, y) && lt(y, z) ==> lt(x, z))
    && (forall x, y, z {:trigger lt(x, y), lt(x, z)} {:trigger lt(x, y), lt(z, y)} :: lt(x, y) ==> lt(x, z) || lt(z, y))
  }

  /** Distinct values are comparable. */
  ghost predicate TotalOrder<T(!new)>(lt: (T, T) -> bool) {
    StrictOrder(lt) && forall x, y {:trigger lt(x, y)} :: x != y ==> lt(x, y) || lt(y, x)
  }

  // ----- stable insertion sort -----

  function Insert<T>(s: seq<T>, x: T, lt: (T, T) -> bool): (r: seq<T>)
    ensures |r| == |s| + 1
  {
    if s == [] || !lt(x, s[|s| - 1]) then s + [x]
    else Insert(s[..|s| - 1], x, lt) + [s[|s| - 1]]
  }

  function Sort<T>(s: seq<T>, lt: (T, T) -> bool): (r: seq<T>)
    ensures |r| == |s|
  {
    if s == [] then [] else Insert(Sort(s[..|s| - 1], lt), s[|s| - 1], lt)
  }

  predicate Sorted<T>(s: seq<T>, lt: (T, T) -> bool) {
    forall i, j :: 0 <= i < j < |s| ==> !lt(s[j], s[i])
  }

  predicate Ascending<T>(s: seq<T>, lt: (T, T) -> bool) {
    forall i, j :: 0 <= i < j < |s| ==> lt(s[i], s[j])
  }

  lemma {:induction false} InsertContents<T>(s: seq<T>, x: T, lt: (T, T) -> bool)
    ensures multiset(Insert(s, x, lt)) == multiset(s) + multiset{x}
    decreases |s|
  {
    if s != [] {
      assert s == s[..|s| - 1] + [s[|s| - 1]];
      if lt(x, s[|s| - 1]) { InsertContents(s[..|s| - 1], x, lt); }
    }
  }

  lemma {:induction false} SortContents<T>(s: seq<T>, lt: (T, T) -> bool)
    ensures multiset(Sort(s, lt)) == multiset(s)
    decreases |s|
  {
    if s != [] {
      assert s == s[..|s| - 1] + [s[|s| - 1]];
      SortContents(s[..|s| - 1], lt);
      InsertContents(Sort(s[..|s| - 1], lt), s[|s| - 1], lt);
    }
  }

  lemma {:induction false} SortMembers<T>(s: seq<T>, lt: (T, T) -> bool, x: T)
    ensures x in Sort(s, lt) <==> x in s
  {
    SortContents(s, lt);
    assert x in Sort(s, lt) <==> x in multiset(Sort(s, lt));
    assert x in s <==> x in multiset(s);
  }

  lemma {:induction false} InsertSorted<T(!new)>(s: seq<T>, x: T, lt: (T, T) -> bool)
    requires StrictOrder(lt) && Sorted(s, lt)
    ensures Sorted(Insert(s, x, lt), lt)
    decreases |s|
  {
    var r := Insert(s, x, lt);
    if s != [] {
      var front, last := s[..|s| - 1], s[|s| - 1];
      if !lt(x, last) {
        forall i | 0 <= i < |s|
          ensures !lt(x, s[i])
        {
          assert i < |s| - 1 ==> !lt(last, s[i]);
        }
      } else {
        InsertSorted(front, x, lt);
        InsertContents(front, x, lt);
        var t := Insert(front, x, lt);
        forall i | 0 <= i < |t|
          ensures !lt(last, t[i])
        {
          assert t[i] in multiset(t);
          assert t[i] == x || t[i] in multiset(front);
        }
      }
    }
  }

  lemma {:induction false} SortSorts<T(!new)>(s: seq<T>, lt: (T, T) -> bool)
    requires StrictOrder(lt)
    ensures Sorted(Sort(s, lt), lt)
    decreases |s|
  {
    if s != [] {
      SortSorts(s[..|s| - 1], lt);
      InsertSorted(Sort(s[..|s| - 1], lt), s[|s| - 1], lt);
    }
  }

  /** Sorting leaves a sorted sequence alone: equal keys keep their order. */
  lemma {:induction false} SortedUnchanged<T>(s: seq<T>, lt: (T, T) -> bool)
    requires Sorted(s, lt)
    ensures Sort(s, lt) == s
    decreases |s|
  {
    if s != [] {
      var front := s[..|s| - 1];
      SortedUnchanged(front, lt);
      assert front == [] || !lt(s[|s| - 1], front[|front| - 1]);
      assert s == front + [s[|s| - 1]];
    }
  }

  // ----- canonical forms -----

  /** An ascending sequence is determined by its elements. */
  lemma {:induction false} AscendingUnique<T(!new)>(s: seq<T>, t: seq<T>, lt: (T, T) -> bool)
    requires StrictOrder(lt) && Ascending(s, lt) && Ascending(t, lt)
    requires forall x :: x in s <==> x in t
    ensures s == t
    decreases |s|
  {
    if s == [] {
      assert forall i :: 0 <= i < |t| ==> t[i] in t;
    } else {
      assert s[0] in t && t[0] in s by { assert s[0] in s; assert t != [] ==> t[0] in t; }
      HeadsAgree(s, t, lt);
      forall x
        ensures x in s[1..] <==> x in t[1..]
      {
        TailMembers(s, lt, x);
        TailMembers(t, lt, x);
      }
      AscendingUnique(s[1..], t[1..], lt);
      assert s == [s[0]] + s[1..] && t == [t[0]] + t[1..];
    }
  }

  lemma {:induction false} HeadsAgree<T(!new)>(s: seq<T>, t: seq<T>, lt: (T, T) -> bool)
    requires StrictOrder(lt) && Ascending(s, lt) && Ascending(t, lt)
    requires s != [] && t != [] && s[0] in t && t[0] in s
    ensures s[0] == t[0]
  {
    var i :| 0 <= i < |t| && t[i] == s[0];
    var j :| 0 <= j < |s| && s[j] == t[0];
    assert forall k :: 0 < k < |t| ==> lt(t[0], t[k]);
    assert forall k :: 0 < k < |s| ==> lt(s[0], s[k]);
  }

  lemma {:induction false} TailMembers<T(!new)>(s: seq<T>, lt: (T, T) -> bool, x: T)
    requires StrictOrder(lt) && Ascending(s, lt) && s != []
    ensures x in s[1..] <==> x in s && x != s[0]
  {
    if x in s && x != s[0] {
      var i :| 0 <= i < |s| && s[i] == x;
      assert s[1..][i - 1] == x;
    }
    if x in s[1..] {
      var i :| 0 <= i < |s[1..]| && s[1..][i] == x;
      assert s[i + 1] == x && lt(s[0], s[i + 1]);
    }
  }

  // ----- keys -----

  /** All pairs of elements are told apart by the relation, one way round. */
  ghost predicate DistinctBy<T>(s: seq<T>, apart: (T, T) -> bool) {
    forall i, j :: 0 <= i < |s| && 0 <= j < |s| && i != j ==> apart(s[i], s[j]) || apart(s[j], s[i])
  }

  lemma {:induction false} SnocDistinct<T>(s: seq<T>, x: T, apart: (T, T) -> bool)
    ensures DistinctBy(s + [x], apart) <==> DistinctBy(s, apart) && forall y :: y in multiset(s) ==> apart(x, y) || apart(y, x)
  {
    var r := s + [x];
    if DistinctBy(r, apart) {
      assert forall i :: 0 <= i < |s| ==> r[i] == s[i];
      forall y | y in multiset(s)
        ensures apart(x, y) || apart(y, x)
      {
        assert y in s;
        var i :| 0 <= i < |s| && s[i] == y;
        assert r[i] == y && r[|s|] == x;
      }
    }
    if DistinctBy(s, apart) && forall y :: y in multiset(s) ==> apart(x, y) || apart(y, x) {
      forall i | 0 <= i < |s|
        ensures apart(x, s[i]) || apart(s[i], x)
      {
        assert s[i] in multiset(s);
      }
    }
  }

  lemma {:induction false} InsertDistinct<T>(s: seq<T>, x: T, lt: (T, T) -> bool, apart: (T, T) -> bool)
    ensures DistinctBy(Insert(s, x, lt), apart) <==> DistinctBy(s + [x], apart)
    decreases |s|
  {
    if s != [] && lt(x, s[|s| - 1]) {
      var front, last := s[..|s| - 1], s[|s| - 1];
      assert s == front + [last];
      InsertDistinct(front, x, lt, apart);
      InsertContents(front, x, lt);
      SnocDistinct(Insert(front, x, lt), last, apart);
      SnocDistinct(front, x, apart);
      SnocDistinct(front, last, apart);
      SnocDistinct(s, x, apart);
      assert multiset(s) == multiset(front) + multiset{last};
    }
  }

  /** Sorting neither creates nor hides elements that are not told apart. */
  lemma {:induction false} SortDistinct<T>(s: seq<T>, lt: (T, T) -> bool, apart: (T, T) -> bool)
    ensures DistinctBy(Sort(s, lt), apart) <==> DistinctBy(s, apart)
    decreases |s|
  {
    if s != [] {
      var front, x := s[..|s| - 1], s[|s| - 1];
      assert s == front + [x];
      SortDistinct(front, lt, apart);
      SortContents(front, lt);
      InsertDistinct(Sort(front, lt), x, lt, apart);
      SnocDistinct(Sort(front, lt), x, apart);
      SnocDistinct(front, x, apart);
    }
  }

  lemma {:induction false} SortAscends<T(!new)>(s: seq<T>, lt: (T, T) -> bool)
    requires StrictOrder(lt) && DistinctBy(s, lt)
    ensures Ascending(Sort(s, lt), lt)
  {
    SortSorts(s, lt);
    SortDistinct(s, lt, lt);
  }

  // ----- sort, then drop repeats -----

  function Dedup<T(==)>(s: seq<T>): seq<T> {
    if |s| <= 1 then s
    else if s[|s| - 2] == s[|s| - 1] then Dedup(s[..|s| - 1])
    else Dedup(s[..|s| - 1]) + [s[|s| - 1]]
  }

  function SortDedup<T(==)>(s: seq<T>, lt: (T, T) -> bool): seq<T> { Dedup(Sort(s, lt)) }

  lemma {:induction false} DedupFacts<T(!new)>(s: seq<T>, lt: (T, T) -> bool)
    requires TotalOrder(lt) && Sorted(s, lt)
    ensures Ascending(Dedup(s), lt)
    ensures forall x :: x in Dedup(s) <==> x in s
    ensures s != [] ==> Dedup(s) != [] && Dedup(s)[|Dedup(s)| - 1] == s[|s| - 1]
    decreases |s|
  {
    if |s| > 1 {
      var front, last := s[..|s| - 1], s[|s| - 1];
      DedupFacts(front, lt);
      assert s == front + [last];
      var d := Dedup(front);
      if front[|front| - 1] != last {
        assert lt(front[|front| - 1], last);
        forall i | 0 <= i < |d|
          ensures lt(d[i], last)
        {
          assert i < |d| - 1 ==> lt(d[i], d[|d| - 1]);
        }
      }
    }
  }

  /** Sorting and dropping repeats gives the ascending list of the elements,
      whatever their order and multiplicity were. */
  lemma {:induction false} SortDedupCanonical<T(!new)>(s: seq<T>, lt: (T, T) -> bool)
    requires TotalOrder(lt)
    ensures Ascending(SortDedup(s, lt), lt) && forall x :: x in SortDedup(s, lt) <==> x in s
  {
    SortSorts(s, lt);
    DedupFacts(Sort(s, lt), lt);
    forall x
      ensures x in Sort(s, lt) <==> x in s
    {
      SortMembers(s, lt, x);
    }
  }

  // ----- lexicographic order -----

  predicate Lex<T(==)>(a: seq<T>, b: seq<T>, lt: (T, T) -> bool) {
    b != [] && (a == [] || lt(a[0], b[0]) || (a[0] == b[0] && Lex(a[1..], b[1..], lt)))
  }

  lemma {:induction false} LexTrichotomy<T(!new)>(a: seq<T>, b: seq<T>, lt: (T, T) -> bool)
    requires TotalOrder(lt)
    ensures !(Lex(a, b, lt) && Lex(b, a, lt)) && (a == b ==> !Lex(a, b, lt))
    ensures a != b ==> Lex(a, b, lt) || Lex(b, a, lt)
    decreases |a|
  {
    if a != [] && b != [] && a[0] == b[0] {
      LexTrichotomy(a[1..], b[1..], lt);
      assert a == [a[0]] + a[1..] && b == [b[0]] + b[1..];
    }
  }

  lemma {:induction false} LexTransitive<T(!new)>(a: seq<T>, b: seq<T>, c: seq<T>, lt: (T, T) -> bool)
    requires TotalOrder(lt) && Lex(a, b, lt) && Lex(b, c, lt)
    ensures Lex(a, c, lt)
    decreases |a|
  {
    if a != [] && a[0] == b[0] && b[0] == c[0] { LexTransitive(a[1..], b[1..], c[1..], lt); }
  }

  /** A relation that is the lexicographic order of a total order is total. */
  lemma {:induction false} LexTotal<T(!new)>(less: (seq<T>, seq<T>) -> bool, lt: (T, T) -> bool)
    requires TotalOrder(lt) && forall a, b {:trigger less(a, b)} :: less(a, b) == Lex(a, b, lt)
    ensures TotalOrder(less)
  {
    hide Lex;
    forall x: seq<T>, y: seq<T>
      ensures !less(x, x) && (x != y ==> less(x, y) || less(y, x))
    {
      LexTrichotomy(x, y, lt);
      LexTrichotomy(x, x, lt);
    }
    forall x: seq<T>, y: seq<T>, z: seq<T> | less(x, y) && less(y, z)
      ensures less(x, z)
    {
      LexTransitive(x, y, z, lt);
    }
    forall x: seq<T>, y: seq<T>, z: seq<T> | less(x, y)
      ensures less(x, z) || less(z, y)
    {
      LexTrichotomy(x, z, lt);
      if less(z, x) { LexTransitive(z, x, y, lt); }
    }
  }

  predicate CharLess(a: char, b: char) { a < b }

  predicate StrLess(a: string, b: string) { Lex(a, b, CharLess) }

  lemma {:induction false} StrLessTotal()
    ensures TotalOrder(StrLess)
  {
    hide Lex;
    assert TotalOrder(CharLess);
    LexTotal(StrLess, CharLess);
  }
}
