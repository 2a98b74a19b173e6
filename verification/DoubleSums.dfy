/** Sums over pairs of indices: swapping the order, adding, comparing. */
module DoubleSums {
  import opened Sums

  type Grid = (nat, nat) -> int

  function Row(g: Grid, i: nat): nat -> int {
    (j: nat) => g(i, j)
  }

  function RowSums(m: nat, g: Grid): nat -> int {
    (i: nat) => Sum(m, Row(g, i))
  }

  /** The sum of g(i, j) over i < n and j < m. */
  function Total(n: nat, m: nat, g: Grid): int {
    Sum(n, RowSums(m, g))
  }

  function Transposed(g: Grid): Grid {
    (i: nat, j: nat) => g(j, i)
  }

  function Both(g: Grid, h: Grid): Grid {
    (i: nat, j: nat) => g(i, j) + h(i, j)
  }

  function Zero(): nat -> int {
    (i: nat) => 0
  }

  lemma {:induction false} SumZero(n: nat)
    ensures Sum(n, Zero()) == 0
  {
    if n > 0 {
      SumZero(n - 1);
    }
  }

  lemma {:induction false} TotalSame(n: nat, m: nat, g: Grid, h: Grid)
    requires forall i: nat, j: nat :: i < n && j < m ==> g(i, j) == h(i, j)
    ensures Total(n, m, g) == Total(n, m, h)
  {
    forall i: nat | i < n ensures RowSums(m, g)(i) == RowSums(m, h)(i) {
      SumSame(m, Row(g, i), Row(h, i));
    }
    SumSame(n, RowSums(m, g), RowSums(m, h));
  }

  lemma {:induction false} TotalMonotone(n: nat, m: nat, g: Grid, h: Grid)
    requires forall i: nat, j: nat :: i < n && j < m ==> g(i, j) <= h(i, j)
    ensures Total(n, m, g) <= Total(n, m, h)
  {
    forall i: nat | i < n ensures RowSums(m, g)(i) <= RowSums(m, h)(i) {
      SumMonotone(m, Row(g, i), Row(h, i));
    }
    SumMonotone(n, RowSums(m, g), RowSums(m, h));
  }

  lemma {:induction false} TotalAdd(n: nat, m: nat, g: Grid, h: Grid)
    ensures Total(n, m, Both(g, h)) == Total(n, m, g) + Total(n, m, h)
  {
    forall i: nat | i < n ensures RowSums(m, Both(g, h))(i) == Plus(RowSums(m, g), RowSums(m, h))(i) {
      SumAdd(m, Row(g, i), Row(h, i));
      SumSame(m, Row(Both(g, h), i), Plus(Row(g, i), Row(h, i)));
    }
    SumSame(n, RowSums(m, Both(g, h)), Plus(RowSums(m, g), RowSums(m, h)));
    SumAdd(n, RowSums(m, g), RowSums(m, h));
  }

  /** The order of summation does not matter. */
  lemma {:induction false} TotalSwapped(n: nat, m: nat, g: Grid)
    ensures Total(n, m, g) == Total(m, n, Transposed(g))
  {
    if n == 0 {
      SumSame(m, RowSums(0, Transposed(g)), Zero());
      SumZero(m);
    } else {
      TotalSwapped(n - 1, m, g);
      var column, last := RowSums(n - 1, Transposed(g)), Row(g, n - 1);
      forall j: nat | j < m ensures RowSums(n, Transposed(g))(j) == Plus(column, last)(j) {
      }
      SumSame(m, RowSums(n, Transposed(g)), Plus(column, last));
      SumAdd(m, column, last);
    }
  }

  lemma {:induction false} SumNonNegativeZero(n: nat, f: nat -> int)
    requires forall i: nat :: i < n ==> f(i) >= 0
    ensures Sum(n, f) >= 0
    ensures Sum(n, f) == 0 <==> forall i: nat :: i < n ==> f(i) == 0
  {
    if n > 0 {
      SumNonNegativeZero(n - 1, f);
    }
  }

  lemma {:induction false} TotalNonNegativeZero(n: nat, m: nat, g: Grid)
    requires forall i: nat, j: nat :: i < n && j < m ==> g(i, j) >= 0
    ensures Total(n, m, g) >= 0
    ensures Total(n, m, g) == 0 <==> forall i: nat, j: nat :: i < n && j < m ==> g(i, j) == 0
  {
    forall i: nat | i < n
      ensures RowSums(m, g)(i) >= 0
      ensures RowSums(m, g)(i) == 0 <==> forall j: nat :: j < m ==> g(i, j) == 0
    {
      SumNonNegativeZero(m, Row(g, i));
      assert forall j: nat :: j < m ==> Row(g, i)(j) == g(i, j);
    }
    SumNonNegativeZero(n, RowSums(m, g));
    if Total(n, m, g) == 0 {
      forall i: nat, j: nat | i < n && j < m ensures g(i, j) == 0 {
        assert RowSums(m, g)(i) == 0;
      }
    }
  }

  /** A sum with a single term that is not zero. */
  lemma {:induction false} SumSingle(n: nat, f: nat -> int, k: nat)
    requires k < n
    requires forall i: nat :: i < n && i != k ==> f(i) == 0
    ensures Sum(n, f) == f(k)
  {
    if k == n - 1 {
      SumSame(n - 1, f, Zero());
      SumZero(n - 1);
    } else {
      SumSingle(n - 1, f, k);
    }
  }
}
