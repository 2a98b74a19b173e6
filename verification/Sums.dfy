/** Finite sums, and the fact that the order of summation does not matter. */
module Sums {

  /** f(0) + ... + f(n-1) */
  function Sum(n: nat, f: nat -> int): int {
    if n == 0 then 0 else Sum(n - 1, f) + f(n - 1)
  }

  /** The sum of f over a set. */
  ghost function SetSum<K>(s: set<K>, f: K -> int): int {
    if s == {} then 0 else
    var k :| k in s;
    f(k) + SetSum(s - {k}, f)
  }

  lemma {:induction false} SetSumRemove<K>(s: set<K>, k: K, f: K -> int)
    requires k in s
    ensures SetSum(s, f) == f(k) + SetSum(s - {k}, f)
  {
    var c :| c in s && SetSum(s, f) == f(c) + SetSum(s - {c}, f);
    if c != k {
      SetSumRemove(s - {c}, k, f);
      SetSumRemove(s - {k}, c, f);
      assert s - {c} - {k} == s - {k} - {c};
    }
  }

  lemma {:induction false} SetSumSame<K>(s: set<K>, f: K -> int, g: K -> int)
    requires forall k :: k in s ==> f(k) == g(k)
    ensures SetSum(s, f) == SetSum(s, g)
  {
    if s != {} {
      var k :| k in s;
      SetSumRemove(s, k, f);
      SetSumRemove(s, k, g);
      SetSumSame(s - {k}, f, g);
    }
  }

  lemma {:induction false} SumSame(n: nat, f: nat -> int, g: nat -> int)
    requires forall i: nat :: i < n ==> f(i) == g(i)
    ensures Sum(n, f) == Sum(n, g)
  {
    if n > 0 {
      SumSame(n - 1, f, g);
    }
  }

  function Plus(f: nat -> int, g: nat -> int): nat -> int {
    (i: nat) => f(i) + g(i)
  }

  /** f read in the order p. */
  function Along(p: seq<nat>, f: nat -> int): nat -> int {
    (k: nat) => if k < |p| then f(p[k]) else 0
  }

  lemma {:induction false} SumAdd(n: nat, f: nat -> int, g: nat -> int)
    ensures Sum(n, Plus(f, g)) == Sum(n, f) + Sum(n, g)
  {
    if n > 0 {
      SumAdd(n - 1, f, g);
    }
  }

  lemma {:induction false} SumMonotone(n: nat, f: nat -> int, g: nat -> int)
    requires forall i: nat :: i < n ==> f(i) <= g(i)
    ensures Sum(n, f) <= Sum(n, g)
  {
    if n > 0 {
      SumMonotone(n - 1, f, g);
    }
  }

  /** A permutation of 0, ..., |p|-1. */
  ghost predicate Permutation(p: seq<nat>) {
    && (forall i :: 0 <= i < |p| ==> p[i] < |p|)
    && (forall i, j :: 0 <= i < j < |p| ==> p[i] != p[j])
  }

  ghost function Image(p: seq<nat>): set<nat> {
    set i | 0 <= i < |p| :: p[i]
  }

  ghost function Below(n: nat): (s: set<nat>)
    ensures forall i: nat :: i in s <==> i < n
  {
    if n == 0 then {} else Below(n - 1) + {n - 1}
  }

  lemma {:induction false} BelowSize(n: nat)
    ensures |Below(n)| == n
  {
    if n > 0 {
      BelowSize(n - 1);
    }
  }

  lemma {:induction false} ImageSize(p: seq<nat>)
    requires forall i, j :: 0 <= i < j < |p| ==> p[i] != p[j]
    ensures |Image(p)| == |p|
  {
    if p == [] {
      assert Image(p) == {};
    } else {
      var front := p[..|p| - 1];
      ImageSize(front);
      assert Image(p) == Image(front) + {p[|p| - 1]} by {
        assert forall i :: 0 <= i < |front| ==> p[i] == front[i];
      }
      assert p[|p| - 1] !in Image(front);
    }
  }

  lemma {:induction false} SubsetSameSize<T>(a: set<T>, b: set<T>)
    requires a <= b && |a| == |b|
    ensures a == b
  {
    assert b == a + (b - a);
    assert |b| == |a| + |b - a|;
  }

  /** A permutation reaches every index. */
  lemma {:induction false} PermutationOnto(p: seq<nat>)
    requires Permutation(p)
    ensures Image(p) == Below(|p|)
    ensures forall j: nat :: j < |p| ==> j in p
  {
    ImageSize(p);
    BelowSize(|p|);
    SubsetSameSize(Image(p), Below(|p|));
    forall j: nat | j < |p| ensures j in p {
      assert j in Below(|p|);
    }
  }

  lemma {:induction false} SumOverSet(n: nat, f: nat -> int)
    ensures Sum(n, f) == SetSum<nat>(Below(n), f)
  {
    if n == 0 {
      assert Below(0) == {};
    } else {
      SumOverSet(n - 1, f);
      SetSumRemove<nat>(Below(n), n - 1, f);
      assert Below(n) - {n - 1} == Below(n - 1);
    }
  }

  lemma {:induction false} ImageNext(p: seq<nat>, m: nat)
    requires 0 < m <= |p|
    requires forall i, j :: 0 <= i < j < |p| ==> p[i] != p[j]
    ensures p[m - 1] in Image(p[..m])
    ensures Image(p[..m]) - {p[m - 1]} == Image(p[..m - 1])
  {
    var last := p[m - 1];
    assert p[..m][m - 1] == last;
    forall x | x in Image(p[..m]) - {last} ensures x in Image(p[..m - 1]) {
      var i :| 0 <= i < m && p[..m][i] == x;
      assert p[..m - 1][i] == x;
    }
    forall x | x in Image(p[..m - 1]) ensures x in Image(p[..m]) - {last} {
      var i :| 0 <= i < m - 1 && p[..m - 1][i] == x;
      assert p[..m][i] == x;
    }
  }

  lemma {:induction false} SumAlong(p: seq<nat>, m: nat, f: nat -> int)
    requires m <= |p|
    requires forall i, j :: 0 <= i < j < |p| ==> p[i] != p[j]
    ensures Sum(m, Along(p, f)) == SetSum<nat>(Image(p[..m]), f)
  {
    if m == 0 {
      assert Image(p[..0]) == {};
    } else {
      hide Image, SetSum;
      SumAlong(p, m - 1, f);
      ImageNext(p, m);
      SetSumRemove<nat>(Image(p[..m]), p[m - 1], f);
    }
  }

  /** Summing in the order of a permutation gives the same total. */
  lemma {:induction false} SumPermuted(p: seq<nat>, f: nat -> int)
    requires Permutation(p)
    ensures Sum(|p|, Along(p, f)) == Sum(|p|, f)
  {
    SumAlong(p, |p|, f);
    assert p[..|p|] == p;
    PermutationOnto(p);
    SumOverSet(|p|, f);
  }
}
