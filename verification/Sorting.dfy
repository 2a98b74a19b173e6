/** Python's `sorted(..., reverse=True)`: largest first, equal elements in their original order. */
module Sorting {

  /** `above(a, b)` says that a has the strictly larger key. */
  function Insert<T>(sorted: seq<T>, x: T, above: (T, T) -> bool): (r: seq<T>)
    ensures multiset(r) == multiset(sorted) + multiset{x}
    ensures |r| == |sorted| + 1
  {
    if sorted == [] then [x]
    else
      var front, last := sorted[..|sorted| - 1], sorted[|sorted| - 1];
      assert sorted == front + [last];
      if above(x, last) then Insert(front, x, above) + [last] else sorted + [x]
  }

  function LargestFirst<T>(xs: seq<T>, above: (T, T) -> bool): (r: seq<T>)
    ensures multiset(r) == multiset(xs)
    ensures |r| == |xs|
  {
    if xs == [] then []
    else
      assert xs == xs[..|xs| - 1] + [xs[|xs| - 1]];
      Insert(LargestFirst(xs[..|xs| - 1], above), xs[|xs| - 1], above)
  }

  ghost predicate Ordered<T>(xs: seq<T>, above: (T, T) -> bool) {
    forall i, j :: 0 <= i < j < |xs| ==> !above(xs[j], xs[i])
  }

  /** A comparison of keys. */
  ghost predicate Comparison<T(!new)>(above: (T, T) -> bool) {
    && (forall a, b :: above(a, b) ==> !above(b, a))
    && (forall a, b, c :: !above(a, b) && !above(b, c) ==> !above(a, c))
  }

  lemma {:induction false} InsertOrdered<T(!new)>(sorted: seq<T>, x: T, above: (T, T) -> bool)
    requires Comparison(above) && Ordered(sorted, above)
    ensures Ordered(Insert(sorted, x, above), above)
  {
    if sorted != [] {
      var front, last := sorted[..|sorted| - 1], sorted[|sorted| - 1];
      InsertOrdered(front, x, above);
      var r := Insert(front, x, above);
      if above(x, last) {
        forall i | 0 <= i < |r| ensures !above(last, r[i]) {
          assert r[i] in multiset(r);
          assert r[i] in multiset(front) || r[i] == x;
          if r[i] != x {
            var k :| 0 <= k < |front| && front[k] == r[i];
            assert !above(sorted[|front|], sorted[k]);
          }
        }
      } else {
        forall i | 0 <= i < |sorted| ensures !above(x, sorted[i]) {
          assert !above(x, last) && (i < |front| ==> !above(last, sorted[i]));
        }
      }
    }
  }

  lemma {:induction false} LargestFirstOrdered<T(!new)>(xs: seq<T>, above: (T, T) -> bool)
    requires Comparison(above)
    ensures Ordered(LargestFirst(xs, above), above)
  {
    if xs != [] {
      LargestFirstOrdered(xs[..|xs| - 1], above);
      InsertOrdered(LargestFirst(xs[..|xs| - 1], above), xs[|xs| - 1], above);
    }
  }

  lemma {:induction false} LargestFirstMembers<T>(xs: seq<T>, above: (T, T) -> bool)
    ensures forall x :: x in LargestFirst(xs, above) <==> x in xs
  {
    hide LargestFirst;
    assert forall x :: x in xs <==> x in multiset(xs);
    assert forall x :: x in LargestFirst(xs, above) <==> x in multiset(LargestFirst(xs, above));
  }
}
