/** ROC-AUC by rank sum: `argsort(argsort(scores))` in place of counting pairs. */
module RocAuc {
  import opened Wrappers
  import opened Sums
  import opened DoubleSums

  /** numpy's `argsort` promises a permutation that sorts the keys, and nothing about the order of equal keys. */
  ghost predicate Argsort(keys: seq<real>, p: seq<nat>) {
    && |p| == |keys|
    && Permutation(p)
    && (forall i, j :: 0 <= i < j < |p| ==> keys[p[i]] <= keys[p[j]])
  }

  function AsReals(p: seq<nat>): (keys: seq<real>)
    ensures |keys| == |p|
    ensures forall i :: 0 <= i < |keys| ==> keys[i] == p[i] as real
  {
    seq(|p|, i requires 0 <= i < |p| => p[i] as real)
  }

  /** The ranks the score is computed from: a sort of the scores, sorted again. */
  ghost predicate Ranks(scores: seq<real>, r: seq<nat>) {
    exists p :: Argsort(scores, p) && Argsort(AsReals(p), r)
  }

  /** 1 where the label is v. */
  function Labelled(y: seq<int>, v: int): nat -> int {
    (i: nat) => if i < |y| && y[i] == v then 1 else 0
  }

  function RankOf(y: seq<int>, r: seq<nat>): nat -> int {
    (i: nat) => if i < |y| && i < |r| && y[i] == 1 then r[i] else 0
  }

  function Positives(y: seq<int>): int {
    Sum(|y|, Labelled(y, 1))
  }

  function Negatives(y: seq<int>): int {
    Sum(|y|, Labelled(y, 0))
  }

  function PositiveRankSum(y: seq<int>, r: seq<nat>): int {
    Sum(|y|, RankOf(y, r))
  }

  function Numerator(y: seq<int>, r: seq<nat>): real {
    PositiveRankSum(y, r) as real - (Positives(y) * (Positives(y) - 1)) as real / 2.0
  }

  /** The score before it is rounded; none without both classes. */
  function Auc(y: seq<int>, r: seq<nat>): Option<real> {
    var positives, negatives := Positives(y), Negatives(y);
    if positives * negatives == 0 then None
    else Some(Numerator(y, r) / (positives * negatives) as real)
  }

  // ----- pair counting

  /** A positive i and a negative j with i scored above j. */
  function Wins(y: seq<int>, scores: seq<real>): Grid {
    (i: nat, j: nat) =>
      if i < |y| && j < |y| && i < |scores| && j < |scores| && y[i] == 1 && y[j] == 0 && scores[j] < scores[i]
      then 1 else 0
  }

  function WinsOrTies(y: seq<int>, scores: seq<real>): Grid {
    (i: nat, j: nat) =>
      if i < |y| && j < |y| && i < |scores| && j < |scores| && y[i] == 1 && y[j] == 0 && scores[j] <= scores[i]
      then 1 else 0
  }

  /** How many (positive, negative) pairs rank the positive higher. */
  function PairsWon(y: seq<int>, scores: seq<real>): int {
    Total(|y|, |y|, Wins(y, scores))
  }

  function PairsWonOrTied(y: seq<int>, scores: seq<real>): int {
    Total(|y|, |y|, WinsOrTies(y, scores))
  }

  /** A positive i ranked above j, where j carries the label v. */
  function RankedAbove(y: seq<int>, r: seq<nat>, v: int): Grid {
    (i: nat, j: nat) =>
      if i < |y| && j < |y| && i < |r| && j < |r| && y[i] == 1 && y[j] == v && r[j] < r[i] then 1 else 0
  }

  /** A positive i ranked above j, where j is not a positive. */
  function AboveOther(y: seq<int>, r: seq<nat>): Grid {
    (i: nat, j: nat) =>
      if i < |y| && j < |y| && i < |r| && j < |r| && y[i] == 1 && y[j] != 1 && r[j] < r[i] then 1 else 0
  }

  function AboveAny(y: seq<int>, r: seq<nat>): Grid {
    (i: nat, j: nat) =>
      if i < |y| && j < |y| && i < |r| && j < |r| && y[i] == 1 && r[j] < r[i] then 1 else 0
  }

  function SamePositive(y: seq<int>): Grid {
    (i: nat, j: nat) => if i < |y| && i == j && y[i] == 1 then 1 else 0
  }

  function PositiveAndLabelled(y: seq<int>, v: int): Grid {
    (i: nat, j: nat) => if i < |y| && j < |y| && y[i] == 1 && y[j] == v then 1 else 0
  }

  // ----- argsort of argsort

  lemma {:induction false} IncreasingFromBelow(q: seq<nat>, i: nat)
    requires i < |q|
    requires forall a, b :: 0 <= a < b < |q| ==> q[a] < q[b]
    ensures q[i] >= i
  {
    if i > 0 {
      IncreasingFromBelow(q, i - 1);
    }
  }

  lemma {:induction false} IncreasingFromAbove(q: seq<nat>, i: nat)
    requires i < |q|
    requires forall a :: 0 <= a < |q| ==> q[a] < |q|
    requires forall a, b :: 0 <= a < b < |q| ==> q[a] < q[b]
    ensures q[i] <= i
    decreases |q| - i
  {
    if i < |q| - 1 {
      IncreasingFromAbove(q, i + 1);
    }
  }

  lemma {:induction false} InverseAt(p: seq<nat>, r: seq<nat>, k: nat)
    requires Permutation(p) && Argsort(AsReals(p), r) && k < |p|
    ensures r[k] < |p| && p[r[k]] == k
  {
    var q := seq(|r|, i requires 0 <= i < |r| => p[r[i]]);
    forall a, b | 0 <= a < b < |q| ensures q[a] < q[b] {
      assert AsReals(p)[r[a]] <= AsReals(p)[r[b]];
      assert r[a] != r[b];
      assert p[r[a]] != p[r[b]] by {
        if r[a] < r[b] {
        } else {
        }
      }
    }
    IncreasingFromBelow(q, k);
    IncreasingFromAbove(q, k);
    assert q[k] == k;
  }

  /** Sorting a sort gives its inverse permutation: r undoes p and p undoes r. */
  lemma {:induction false} ArgsortTwiceInverts(p: seq<nat>, r: seq<nat>, k: nat)
    requires Permutation(p) && Argsort(AsReals(p), r) && k < |p|
    ensures p[r[k]] == k && r[p[k]] == k
  {
    InverseAt(p, r, k);
    PermutationOnto(r);
    assert k in r;
    var i :| 0 <= i < |r| && r[i] == k;
    InverseAt(p, r, i);
  }

  lemma {:induction false} RankOrder(scores: seq<real>, p: seq<nat>, r: seq<nat>, i: nat, j: nat)
    requires Argsort(scores, p) && Argsort(AsReals(p), r) && i < |r| && j < |r|
    ensures r[j] < r[i] ==> scores[j] <= scores[i]
    ensures scores[j] < scores[i] ==> r[j] < r[i]
  {
    InverseAt(p, r, i);
    InverseAt(p, r, j);
    var a, b := r[i], r[j];
    assert a < |p| && b < |p| && p[a] == i && p[b] == j;
    if a < b {
      assert scores[p[a]] <= scores[p[b]];
    } else if b < a {
      assert scores[p[b]] <= scores[p[a]];
    }
  }

  lemma {:induction false} RanksArePermutation(scores: seq<real>, r: seq<nat>)
    requires Ranks(scores, r)
    ensures |r| == |scores| && Permutation(r)
  {
  }

  /** A higher score has a higher rank, and a higher rank never a lower score, however ties were broken. */
  lemma {:induction false} RanksFollowScores(scores: seq<real>, r: seq<nat>, i: nat, j: nat)
    requires Ranks(scores, r) && i < |scores| && j < |scores| && |r| == |scores|
    ensures r[j] < r[i] ==> scores[j] <= scores[i]
    ensures scores[j] < scores[i] ==> r[j] < r[i]
  {
    var p :| Argsort(scores, p) && Argsort(AsReals(p), r);
    RankOrder(scores, p, r, i, j);
  }

  // ----- the double count

  function Under(c: nat): nat -> int {
    (k: nat) => if k < c then 1 else 0
  }

  lemma {:induction false} SumUnder(n: nat, c: nat)
    ensures Sum(n, Under(c)) == if n <= c then n else c
  {
    if n > 0 {
      SumUnder(n - 1, c);
    }
  }

  /** A rank is the number of ranks below it. */
  lemma {:induction false} RankCountsSmaller(r: seq<nat>, i: nat, f: nat -> int)
    requires Permutation(r) && i < |r|
    requires forall j: nat :: j < |r| ==> f(j) == if r[j] < r[i] then 1 else 0
    ensures Sum(|r|, f) == r[i]
  {
    SumSame(|r|, f, Along(r, Under(r[i])));
    SumPermuted(r, Under(r[i]));
    SumUnder(|r|, r[i]);
  }

  lemma {:induction false} RankSumIsPairs(y: seq<int>, r: seq<nat>)
    requires Permutation(r) && |r| == |y|
    ensures PositiveRankSum(y, r) == Total(|y|, |y|, AboveAny(y, r))
  {
    forall i: nat | i < |y| ensures RankOf(y, r)(i) == RowSums(|y|, AboveAny(y, r))(i) {
      if y[i] == 1 {
        RankCountsSmaller(r, i, Row(AboveAny(y, r), i));
      } else {
        SumSame(|y|, Row(AboveAny(y, r), i), Zero());
        SumZero(|y|);
      }
    }
    SumSame(|y|, RankOf(y, r), RowSums(|y|, AboveAny(y, r)));
  }

  function Scaled(f: nat -> int, c: int): nat -> int {
    (i: nat) => if f(i) == 0 then 0 else c
  }

  lemma {:induction false} SumScaled(n: nat, f: nat -> int, c: int)
    requires forall i: nat :: i < n ==> f(i) == 0 || f(i) == 1
    ensures Sum(n, Scaled(f, c)) == Sum(n, f) * c
  {
    if n > 0 {
      SumScaled(n - 1, f, c);
    }
  }

  /** Pairs of a positive and an item labelled v: the product of the two counts. */
  lemma {:induction false} ProductOfCounts(y: seq<int>, v: int)
    ensures Total(|y|, |y|, PositiveAndLabelled(y, v)) == Positives(y) * Sum(|y|, Labelled(y, v))
  {
    var n, c := |y|, Sum(|y|, Labelled(y, v));
    forall i: nat | i < n ensures RowSums(n, PositiveAndLabelled(y, v))(i) == Scaled(Labelled(y, 1), c)(i) {
      if y[i] == 1 {
        SumSame(n, Row(PositiveAndLabelled(y, v), i), Labelled(y, v));
      } else {
        SumSame(n, Row(PositiveAndLabelled(y, v), i), Zero());
        SumZero(n);
      }
    }
    SumSame(n, RowSums(n, PositiveAndLabelled(y, v)), Scaled(Labelled(y, 1), c));
    SumScaled(n, Labelled(y, 1), c);
  }

  lemma {:induction false} DiagonalIsPositives(y: seq<int>)
    ensures Total(|y|, |y|, SamePositive(y)) == Positives(y)
  {
    var n := |y|;
    forall i: nat | i < n ensures RowSums(n, SamePositive(y))(i) == Labelled(y, 1)(i) {
      SumSingle(n, Row(SamePositive(y), i), i);
    }
    SumSame(n, RowSums(n, SamePositive(y)), Labelled(y, 1));
  }

  /** Among positives, each unordered pair is ranked one way or the other: P(P-1)/2 of them. */
  lemma {:induction false} PositivesAmongThemselves(y: seq<int>, r: seq<nat>)
    requires Permutation(r) && |r| == |y|
    ensures 2 * Total(|y|, |y|, RankedAbove(y, r, 1)) == Positives(y) * (Positives(y) - 1)
  {
    var n := |y|;
    var up := RankedAbove(y, r, 1);
    TotalSwapped(n, n, up);
    TotalAdd(n, n, up, Transposed(up));
    TotalAdd(n, n, Both(up, Transposed(up)), SamePositive(y));
    EitherRankedAbove(y, r);
    ProductOfCounts(y, 1);
    DiagonalIsPositives(y);
    hide Total, Permutation;
  }

  /** Two positives are ranked one way, or the other, or are the same. */
  lemma {:induction false} EitherRankedAbove(y: seq<int>, r: seq<nat>)
    requires Permutation(r) && |r| == |y|
    ensures var up := RankedAbove(y, r, 1);
            Total(|y|, |y|, Both(Both(up, Transposed(up)), SamePositive(y)))
            == Total(|y|, |y|, PositiveAndLabelled(y, 1))
  {
    hide Total;
    var up := RankedAbove(y, r, 1);
    forall i: nat, j: nat | i < |y| && j < |y|
      ensures Both(Both(up, Transposed(up)), SamePositive(y))(i, j) == PositiveAndLabelled(y, 1)(i, j)
    {
      if i != j {
        assert r[i] != r[j] by {
          if i < j {
          } else {
          }
        }
      }
    }
    TotalSame(|y|, |y|, Both(Both(up, Transposed(up)), SamePositive(y)), PositiveAndLabelled(y, 1));
  }

  /** For every labelling, the numerator is the number of positives ranked above something that is not a positive. */
  lemma {:induction false} NumeratorCountsPairs(y: seq<int>, r: seq<nat>)
    requires Permutation(r) && |r| == |y|
    ensures Numerator(y, r) == Total(|y|, |y|, AboveOther(y, r)) as real
  {
    var n := |y|;
    RankSumIsPairs(y, r);
    TotalSame(n, n, AboveAny(y, r), Both(RankedAbove(y, r, 1), AboveOther(y, r)));
    TotalAdd(n, n, RankedAbove(y, r, 1), AboveOther(y, r));
    PositivesAmongThemselves(y, r);
  }

  ghost predicate Binary(y: seq<int>) {
    forall i :: 0 <= i < |y| ==> y[i] == 0 || y[i] == 1
  }

  /** With labels 0 and 1, the formula lies between counting the pairs won and counting the pairs won or tied. */
  lemma {:induction false} AucBetweenPairCounts(y: seq<int>, scores: seq<real>, r: seq<nat>)
    requires |scores| == |y| && Ranks(scores, r) && Binary(y)
    ensures PairsWon(y, scores) as real <= Numerator(y, r) <= PairsWonOrTied(y, scores) as real
  {
    RanksArePermutation(scores, r);
    NumeratorCountsPairs(y, r);
    forall i: nat, j: nat | i < |y| && j < |y|
      ensures Wins(y, scores)(i, j) <= AboveOther(y, r)(i, j) <= WinsOrTies(y, scores)(i, j)
    {
      RanksFollowScores(scores, r, i, j);
    }
    TotalMonotone(|y|, |y|, Wins(y, scores), AboveOther(y, r));
    TotalMonotone(|y|, |y|, AboveOther(y, r), WinsOrTies(y, scores));
  }

  /** Without ties it is pair counting, exactly. */
  lemma {:induction false} AucIsPairCounting(y: seq<int>, scores: seq<real>, r: seq<nat>)
    requires |scores| == |y| && Ranks(scores, r) && Binary(y)
    requires forall i, j :: 0 <= i < j < |scores| ==> scores[i] != scores[j]
    ensures Auc(y, r).Some? <==> Positives(y) > 0 && Negatives(y) > 0
    ensures Auc(y, r).Some? ==>
              Auc(y, r).value * (Positives(y) * Negatives(y)) as real == PairsWon(y, scores) as real
  {
    AucBetweenPairCounts(y, scores, r);
    forall i: nat, j: nat | i < |y| && j < |y| ensures Wins(y, scores)(i, j) == WinsOrTies(y, scores)(i, j) {
      if i != j {
        assert scores[i] != scores[j] by {
          if i < j {
          } else {
          }
        }
      }
    }
    TotalSame(|y|, |y|, Wins(y, scores), WinsOrTies(y, scores));
    CountsAreNatural(y);
    NonZeroProduct(Positives(y), Negatives(y));
    if Auc(y, r).Some? {
      DivideThenMultiply(Numerator(y, r), (Positives(y) * Negatives(y)) as real);
    }
  }

  lemma {:induction false} CountsAreNatural(y: seq<int>)
    ensures Positives(y) >= 0 && Negatives(y) >= 0
  {
    SumNonNegativeZero(|y|, Labelled(y, 1));
    SumNonNegativeZero(|y|, Labelled(y, 0));
  }

  lemma {:induction false} NonZeroProduct(a: int, b: int)
    requires a >= 0 && b >= 0
    ensures a * b >= 0
    ensures a * b == 0 <==> a == 0 || b == 0
  {
  }

  lemma {:induction false} DivideThenMultiply(a: real, b: real)
    requires b != 0.0
    ensures a / b * b == a
  {
  }

  lemma {:induction false} MultipleAgainst(q: real, b: real)
    requires b > 0.0
    ensures q > 1.0 ==> q * b > b
    ensures q < 0.0 ==> q * b < 0.0
  {
  }

  lemma {:induction false} QuotientInUnit(a: real, b: real)
    requires 0.0 <= a <= b && b > 0.0
    ensures 0.0 <= a / b <= 1.0
  {
    DivideThenMultiply(a, b);
    MultipleAgainst(a / b, b);
  }

  /** The score is always in [0, 1], ties or not, and stays there under any rounding that keeps order and fixes the
      two ends. */
  lemma {:induction false} AucInUnitInterval(y: seq<int>, scores: seq<real>, r: seq<nat>, round: real -> real)
    requires |scores| == |y| && Ranks(scores, r) && Binary(y)
    requires forall a, b :: a <= b ==> round(a) <= round(b)
    requires round(0.0) == 0.0 && round(1.0) == 1.0
    ensures Auc(y, r).Some? ==> 0.0 <= Auc(y, r).value <= 1.0 && 0.0 <= round(Auc(y, r).value) <= 1.0
  {
    AucBetweenPairCounts(y, scores, r);
    CountsAreNatural(y);
    NonZeroProduct(Positives(y), Negatives(y));
    TotalNonNegativeZero(|y|, |y|, Wins(y, scores));
    TotalMonotone(|y|, |y|, WinsOrTies(y, scores), PositiveAndLabelled(y, 0));
    ProductOfCounts(y, 0);
    if Auc(y, r).Some? {
      QuotientInUnit(Numerator(y, r), (Positives(y) * Negatives(y)) as real);
    }
  }

  /** No item with a stray label ranks below a positive. */
  ghost predicate NoStrayRankedBelow(y: seq<int>, r: seq<nat>)
    requires |r| == |y|
  {
    forall i, j :: 0 <= i < |y| && 0 <= j < |y| && y[i] == 1 && y[j] != 0 && y[j] != 1 ==> r[i] <= r[j]
  }

  /** A label that is neither 0 nor 1 counts as a rank but as neither class: the formula still counts exactly the
      (positive, negative) pairs if and only if no item with such a label ranks below a positive. */
  lemma {:induction false} PairCountingIffNoStrayLabelBelow(y: seq<int>, r: seq<nat>)
    requires Permutation(r) && |r| == |y|
    ensures Numerator(y, r) == Total(|y|, |y|, RankedAbove(y, r, 0)) as real <==> NoStrayRankedBelow(y, r)
  {
    var n := |y|;
    var stray: Grid := (i: nat, j: nat) =>
      if i < |y| && j < |y| && i < |r| && j < |r| && y[i] == 1 && y[j] != 0 && y[j] != 1 && r[j] < r[i] then 1 else 0;
    NumeratorCountsPairs(y, r);
    TotalSame(n, n, AboveOther(y, r), Both(RankedAbove(y, r, 0), stray));
    TotalAdd(n, n, RankedAbove(y, r, 0), stray);
    TotalNonNegativeZero(n, n, stray);
    if forall i: nat, j: nat :: i < n && j < n ==> stray(i, j) == 0 {
      forall i, j | 0 <= i < |y| && 0 <= j < |y| && y[i] == 1 && y[j] != 0 && y[j] != 1 ensures r[i] <= r[j] {
        assert stray(i, j) == 0;
      }
    }
  }

  /** No item with a stray label is scored below a positive. */
  ghost predicate NoStrayScoredBelow(y: seq<int>, scores: seq<real>)
    requires |scores| == |y|
  {
    forall i, j :: 0 <= i < |y| && 0 <= j < |y| && y[i] == 1 && y[j] != 0 && y[j] != 1 ==> scores[i] <= scores[j]
  }

  /** The same on what a caller has: with distinct scores and any labels, the formula counts the pairs won if and only
      if no item with a stray label is scored below a positive. */
  lemma {:induction false} PairCountingIffNoStrayScoredBelow(y: seq<int>, scores: seq<real>, r: seq<nat>)
    requires |scores| == |y| && Ranks(scores, r)
    requires forall i, j :: 0 <= i < j < |scores| ==> scores[i] != scores[j]
    ensures Numerator(y, r) == PairsWon(y, scores) as real <==> NoStrayScoredBelow(y, scores)
  {
    RanksArePermutation(scores, r);
    PairCountingIffNoStrayLabelBelow(y, r);
    WinsAreRanked(y, scores, r);
    StrayRanksAreScores(y, scores, r);
    hide Ranks, Numerator, Permutation, Total, NoStrayRankedBelow, NoStrayScoredBelow;
  }

  lemma {:induction false} StrayRanksAreScores(y: seq<int>, scores: seq<real>, r: seq<nat>)
    requires |scores| == |y| == |r| && Ranks(scores, r)
    requires forall i, j :: 0 <= i < j < |scores| ==> scores[i] != scores[j]
    ensures NoStrayRankedBelow(y, r) <==> NoStrayScoredBelow(y, scores)
  {
    hide Ranks;
    RanksOrderScores(scores, r);
    forall i: nat, j: nat | i < |r| && j < |r| ensures r[i] <= r[j] <==> scores[i] <= scores[j] {
      assert r[j] < r[i] <==> scores[j] < scores[i];
    }
  }

  lemma {:induction false} WinsAreRanked(y: seq<int>, scores: seq<real>, r: seq<nat>)
    requires |scores| == |y| && Ranks(scores, r)
    requires forall i, j :: 0 <= i < j < |scores| ==> scores[i] != scores[j]
    ensures PairsWon(y, scores) == Total(|y|, |y|, RankedAbove(y, r, 0))
  {
    RanksArePermutation(scores, r);
    RanksOrderScores(scores, r);
    hide Ranks, Permutation, Total;
    TotalSame(|y|, |y|, Wins(y, scores), RankedAbove(y, r, 0));
  }

  lemma {:induction false} RanksOrderScores(scores: seq<real>, r: seq<nat>)
    requires Ranks(scores, r) && |r| == |scores|
    requires forall i, j :: 0 <= i < j < |scores| ==> scores[i] != scores[j]
    ensures forall i: nat, j: nat :: i < |r| && j < |r| ==> (r[j] < r[i] <==> scores[j] < scores[i])
  {
    RanksArePermutation(scores, r);
    forall i: nat, j: nat | i < |r| && j < |r| ensures r[j] < r[i] <==> scores[j] < scores[i] {
      RanksFollowScores(scores, r, i, j);
      if i != j {
        assert scores[i] != scores[j] by {
          if i < j {
          } else {
          }
        }
      }
    }
  }

  /** A label 2 scored below the one positive: the formula counts two pairs where there is one, and leaves [0, 1]. */
  lemma {:induction false} StrayLabelBreaksTheScore(r: seq<nat>)
    requires Ranks([0.1, 0.5, 0.3], r)
    ensures Auc([2, 1, 0], r) == Some(2.0)
    ensures PairsWon([2, 1, 0], [0.1, 0.5, 0.3]) == 1
  {
    RanksArePermutation([0.1, 0.5, 0.3], r);
    RanksOrderScores([0.1, 0.5, 0.3], r);
    assert r[0] < r[2] < r[1] < 3;
    hide Ranks, Permutation, Sum;
    SumOfThree(Labelled([2, 1, 0], 1));
    SumOfThree(Labelled([2, 1, 0], 0));
    SumOfThree(RankOf([2, 1, 0], r));
    OnePairWon();
  }

  /** Those scores do have ranks. */
  lemma {:induction false} StrayRanks()
    ensures Ranks([0.1, 0.5, 0.3], [0, 2, 1])
  {
    var p: seq<nat> := [0, 2, 1];
    assert AsReals(p) == [0.0, 2.0, 1.0];
    SortOfThree(0.1, 0.5, 0.3);
    SortOfThree(0.0, 2.0, 1.0);
    hide Argsort;
    assert Argsort([0.1, 0.5, 0.3], p) && Argsort(AsReals(p), p);
  }

  lemma {:induction false} SortOfThree(a: real, b: real, c: real)
    requires a <= c <= b
    ensures Argsort([a, b, c], [0, 2, 1])
  {
    var p: seq<nat> := [0, 2, 1];
    assert p[0] == 0 && p[1] == 2 && p[2] == 1;
    assert Permutation(p);
  }

  lemma {:induction false} OnePairWon()
    ensures PairsWon([2, 1, 0], [0.1, 0.5, 0.3]) == 1
  {
    var wins := Wins([2, 1, 0], [0.1, 0.5, 0.3]);
    hide Sum;
    SumOfThree(RowSums(3, wins));
    SumOfThree(Row(wins, 0));
    SumOfThree(Row(wins, 1));
    SumOfThree(Row(wins, 2));
  }

  lemma {:induction false} SumOfThree(f: nat -> int)
    ensures Sum(3, f) == f(0) + f(1) + f(2)
  {
    assert Sum(1, f) == f(0);
  }
}
