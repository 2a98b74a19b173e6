/** The merchant health score: six weighted factors, each showing the points it takes away. */
module HealthScore {
  import opened Wrappers

  datatype Factor = SuccessRate | FailureRate | RefundRate | DisputeRate | WebhookReliability | AnomalySeverity

  const FACTORS: seq<Factor> :=
    [SuccessRate, FailureRate, RefundRate, DisputeRate, WebhookReliability, AnomalySeverity]

  /** Factor n in the order of the table of weights. */
  function FactorAt(n: nat): Factor
    requires n < 6
  {
    FACTORS[n]
  }

  function Weight(f: Factor): real {
    match f
    case SuccessRate => 0.20
    case FailureRate => 0.20
    case RefundRate => 0.10
    case DisputeRate => 0.20
    case WebhookReliability => 0.15
    case AnomalySeverity => 0.15
  }

  datatype Bounds = Bounds(healthy: real, critical: real, higherIsBetter: bool)

  function BoundsOf(f: Factor): Bounds {
    match f
    case SuccessRate => Bounds(0.95, 0.70, true)
    case FailureRate => Bounds(0.05, 0.30, false)
    case RefundRate => Bounds(0.08, 0.30, false)
    case DisputeRate => Bounds(0.01, 0.05, false)
    case WebhookReliability => Bounds(0.97, 0.80, true)
    case AnomalySeverity => Bounds(0.15, 0.75, false)
  }

  /** The share of a factor's points that its value loses. */
  function PenaltyRatio(f: Factor, value: real): real {
    var b := BoundsOf(f);
    if b.higherIsBetter then
      if value >= b.healthy then 0.0
      else if value <= b.critical then 1.0
      else (b.healthy - value) / (b.healthy - b.critical)
    else
      if value <= b.healthy then 0.0
      else if value >= b.critical then 1.0
      else (value - b.healthy) / (b.critical - b.healthy)
  }

  datatype Penalty = Penalty(factor: Option<Factor>, points: real)

  datatype Band = Healthy | Degraded | Critical

  datatype Score = Score(score: real, band: Band, factorScores: seq<real>, penalties: seq<Penalty>)

  function BandOf(score: real): Band {
    if score >= 80.0 then Healthy else if score >= 50.0 then Degraded else Critical
  }

  /** Rounding to two decimals: all that is used of it. */
  ghost predicate RoundsToCents(round: real -> real) {
    && (forall x, y :: x <= y ==> round(x) <= round(y))
    && (forall x :: x - 0.005 <= round(x) <= x + 0.005)
    && round(0.0) == 0.0 && round(100.0) == 100.0
  }

  /** Rounding half up is such a rounding. */
  lemma {:induction false} HalfUpRoundsToCents()
    ensures RoundsToCents(HalfUp)
  {
    forall x, y | x <= y ensures HalfUp(x) <= HalfUp(y) {
      assert (100.0 * x + 0.5).Floor <= (100.0 * y + 0.5).Floor;
    }
    assert (100.0 * 100.0 + 0.5).Floor == 10000;
  }

  function HalfUp(x: real): real {
    (100.0 * x + 0.5).Floor as real / 100.0
  }

  function FactorScore(round: real -> real, f: Factor, value: real): real {
    round(100.0 * (1.0 - PenaltyRatio(f, value)))
  }

  /** The factor's part of so many points. */
  function Share(f: Factor, points: real): real {
    Weight(f) * points
  }

  function WeightedScore(round: real -> real, f: Factor, value: real): real {
    Share(f, FactorScore(round, f, value))
  }

  /** The weighted sum over the first n factors. */
  function Total(round: real -> real, values: Factor -> real, n: nat): real
    requires n <= 6
  {
    if n == 0 then 0.0 else
    var f := FactorAt(n - 1);
    Total(round, values, n - 1) + WeightedScore(round, f, values(f))
  }

  function FactorScores(round: real -> real, values: Factor -> real, n: nat): seq<real>
    requires n <= 6
  {
    if n == 0 then [] else
    FactorScores(round, values, n - 1) + [FactorScore(round, FactorAt(n - 1), values(FactorAt(n - 1)))]
  }

  function PenaltyFor(round: real -> real, f: Factor, value: real): seq<Penalty> {
    var ratio := PenaltyRatio(f, value);
    if ratio > 0.0 then [Penalty(Some(f), round(Share(f, 100.0 * ratio)))] else []
  }

  function Penalties(round: real -> real, values: Factor -> real, n: nat): seq<Penalty>
    requires n <= 6
  {
    if n == 0 then [] else
    Penalties(round, values, n - 1) + PenaltyFor(round, FactorAt(n - 1), values(FactorAt(n - 1)))
  }

  /** Without payments the score is nothing, and one penalty for the volume takes all the points. */
  const EMPTY := Score(0.0, Critical, [0.0, 0.0, 0.0, 0.0, 0.0, 0.0], [Penalty(None, 100.0)])

  function HealthOf(round: real -> real, values: Factor -> real, sampleSize: int): Score {
    if sampleSize == 0 then EMPTY else
    var score := round(Total(round, values, 6));
    Score(score, BandOf(score), FactorScores(round, values, 6), Penalties(round, values, 6))
  }

  lemma {:induction false} NoFactors(round: real -> real, values: Factor -> real)
    ensures Total(round, values, 0) == 0.0 && FactorScores(round, values, 0) == [] && Penalties(round, values, 0) == []
  {
  }

  lemma {:induction false} NextFactor(round: real -> real, values: Factor -> real, n: nat)
    requires n < 6
    ensures var f := FactorAt(n);
            && Total(round, values, n + 1)
               == Total(round, values, n) + Share(f, FactorScore(round, f, values(f)))
            && FactorScores(round, values, n + 1)
               == FactorScores(round, values, n) + [FactorScore(round, f, values(f))]
            && Penalties(round, values, n + 1) == Penalties(round, values, n) + PenaltyFor(round, f, values(f))
  {
    hide FactorAt, FactorScore, PenaltyFor, Share;
  }

  method ComputeHealthScore(round: real -> real, values: Factor -> real, sampleSize: int) returns (r: Score)
    ensures r == HealthOf(round, values, sampleSize)
  {
    hide PenaltyRatio, Share, FactorAt, BandOf, Total, FactorScores, Penalties;
    NoFactors(round, values);
    if sampleSize == 0 {
      return EMPTY;
    }
    var total: real := 0.0;
    var factorScores: seq<real> := [];
    var penalties: seq<Penalty> := [];
    for n := 0 to 6
      invariant total == Total(round, values, n)
      invariant factorScores == FactorScores(round, values, n)
      invariant penalties == Penalties(round, values, n)
    {
      NextFactor(round, values, n);
      var f := FactorAt(n);
      var ratio := PenaltyRatio(f, values(f));
      var factorScore := round(100.0 * (1.0 - ratio));
      total := total + Share(f, factorScore);
      factorScores := factorScores + [factorScore];
      if ratio > 0.0 {
        penalties := penalties + [Penalty(Some(f), round(Share(f, 100.0 * ratio)))];
      }
    }
    var score := round(total);
    r := Score(score, BandOf(score), factorScores, penalties);
  }

  // ----- the points add up

  function Points(penalties: seq<Penalty>): real {
    if penalties == [] then 0.0 else Points(penalties[..|penalties| - 1]) + penalties[|penalties| - 1].points
  }

  lemma {:induction false} PointsOfMore(penalties: seq<Penalty>, more: seq<Penalty>)
    requires |more| <= 1
    ensures Points(penalties + more) == Points(penalties) + (if more == [] then 0.0 else more[0].points)
  {
    if more == [] {
      assert penalties + more == penalties;
    } else {
      assert (penalties + more)[..|penalties|] == penalties;
    }
  }

  lemma {:induction false} RatioIsAShare(f: Factor, value: real)
    ensures 0.0 <= PenaltyRatio(f, value) <= 1.0
  {
    match f
    case _ =>
  }

  /** One factor's weighted score and its penalty together miss its weight in points by rounding only. */
  lemma {:induction false} FactorAddsUp(round: real -> real, f: Factor, value: real)
    requires RoundsToCents(round)
    ensures |PenaltyFor(round, f, value)| <= 1
    ensures var penalty := PenaltyFor(round, f, value);
            var points := if penalty == [] then 0.0 else penalty[0].points;
            var sum := WeightedScore(round, f, value) + points - 100.0 * Weight(f);
            -0.005 * (Weight(f) + 1.0) <= sum <= 0.005 * (Weight(f) + 1.0)
  {
    RatioIsAShare(f, value);
    hide PenaltyRatio;
    var ratio := PenaltyRatio(f, value);
    var score := round(100.0 * (1.0 - ratio));
    var e := score - 100.0 * (1.0 - ratio);
    match f
    case _ => assert Weight(f) * score == 100.0 * Weight(f) - Weight(f) * 100.0 * ratio + Weight(f) * e;
  }

  function WeightUpTo(n: nat): real
    requires n <= 6
  {
    if n == 0 then 0.0 else WeightUpTo(n - 1) + Weight(FactorAt(n - 1))
  }

  lemma {:induction false} WeightsAddUp()
    ensures WeightUpTo(6) == 1.0
  {
    assert WeightUpTo(2) == 0.4;
    assert WeightUpTo(4) == 0.7;
  }

  lemma {:induction false} PointsAddUpTo(round: real -> real, values: Factor -> real, n: nat)
    requires RoundsToCents(round) && n <= 6
    ensures var sum := Total(round, values, n) + Points(Penalties(round, values, n)) - 100.0 * WeightUpTo(n);
            -0.005 * (WeightUpTo(n) + n as real) <= sum <= 0.005 * (WeightUpTo(n) + n as real)
  {
    if n > 0 {
      hide FactorAt, Weight, WeightedScore, FactorScore, PenaltyFor, Points, RoundsToCents;
      var f := FactorAt(n - 1);
      PointsAddUpTo(round, values, n - 1);
      FactorAddsUp(round, f, values(f));
      PointsOfMore(Penalties(round, values, n - 1), PenaltyFor(round, f, values(f)));
    }
  }

  /** The score and the points of the penalties shown beside it add up to 100, but for at most four hundredths; with
      no payments they add up exactly. */
  lemma {:induction false} ShownPointsAddUp(round: real -> real, values: Factor -> real, sampleSize: int)
    requires RoundsToCents(round)
    ensures var r := HealthOf(round, values, sampleSize);
            -0.04 <= r.score + Points(r.penalties) - 100.0 <= 0.04
    ensures sampleSize == 0 ==> HealthOf(round, values, 0).score + Points(HealthOf(round, values, 0).penalties) == 100.0
  {
    PointsAddUpTo(round, values, 6);
    WeightsAddUp();
    assert EMPTY.penalties[..0] == [];
    hide Total, Penalties, Points, WeightUpTo;
  }

  // ----- the range, and better factors

  lemma {:induction false} FactorScoreInRange(round: real -> real, f: Factor, value: real)
    requires RoundsToCents(round)
    ensures 0.0 <= FactorScore(round, f, value) <= 100.0
    ensures 0.0 <= WeightedScore(round, f, value) <= 100.0 * Weight(f)
  {
    RatioIsAShare(f, value);
    hide PenaltyRatio;
    var exact := 100.0 * (1.0 - PenaltyRatio(f, value));
    assert round(0.0) <= round(exact) <= round(100.0);
    Weighted(f, 0.0, FactorScore(round, f, value));
    Weighted(f, FactorScore(round, f, value), 100.0);
  }

  lemma {:induction false} TotalInRange(round: real -> real, values: Factor -> real, n: nat)
    requires RoundsToCents(round) && n <= 6
    ensures 0.0 <= Total(round, values, n) <= 100.0 * WeightUpTo(n)
  {
    if n > 0 {
      hide FactorAt, Weight, WeightedScore, RoundsToCents;
      TotalInRange(round, values, n - 1);
      FactorScoreInRange(round, FactorAt(n - 1), values(FactorAt(n - 1)));
    }
  }

  lemma {:induction false} Weighted(f: Factor, low: real, high: real)
    requires low <= high
    ensures Weight(f) * low <= Weight(f) * high
  {
    match f
    case _ =>
  }

  lemma {:induction false} ScoreInRange(round: real -> real, values: Factor -> real, sampleSize: int)
    requires RoundsToCents(round)
    ensures 0.0 <= HealthOf(round, values, sampleSize).score <= 100.0
  {
    TotalInRange(round, values, 6);
    WeightsAddUp();
    hide Total, Penalties, WeightUpTo;
    var total := Total(round, values, 6);
    assert round(0.0) <= round(total) <= round(100.0);
  }

  predicate AtLeastAsGood(f: Factor, better: real, value: real) {
    if BoundsOf(f).higherIsBetter then better >= value else better <= value
  }

  lemma {:induction false} BetterLosesNoMore(f: Factor, better: real, value: real)
    requires AtLeastAsGood(f, better, value)
    ensures PenaltyRatio(f, better) <= PenaltyRatio(f, value)
  {
    match f
    case _ =>
  }

  lemma {:induction false} BetterTotals(round: real -> real, better: Factor -> real, values: Factor -> real, n: nat)
    requires RoundsToCents(round) && n <= 6
    requires forall f :: AtLeastAsGood(f, better(f), values(f))
    ensures Total(round, values, n) <= Total(round, better, n)
  {
    if n > 0 {
      hide FactorAt, WeightedScore, AtLeastAsGood, RoundsToCents;
      var f := FactorAt(n - 1);
      BetterTotals(round, better, values, n - 1);
      BetterScoresNoLess(round, f, better(f), values(f));
    }
  }

  lemma {:induction false} BetterScoresNoLess(round: real -> real, f: Factor, better: real, value: real)
    requires RoundsToCents(round) && AtLeastAsGood(f, better, value)
    ensures WeightedScore(round, f, value) <= WeightedScore(round, f, better)
  {
    BetterLosesNoMore(f, better, value);
    hide PenaltyRatio, AtLeastAsGood, Weight;
    Weighted(f, FactorScore(round, f, value), FactorScore(round, f, better));
  }

  /** Improving any factors, and worsening none, never lowers the score. */
  lemma {:induction false} BetterFactorsScoreNoLess(round: real -> real, better: Factor -> real,
                                                    values: Factor -> real, sampleSize: int)
    requires RoundsToCents(round)
    requires forall f :: AtLeastAsGood(f, better(f), values(f))
    ensures HealthOf(round, values, sampleSize).score <= HealthOf(round, better, sampleSize).score
  {
    hide Total, Penalties;
    BetterTotals(round, better, values, 6);
  }

  /** The band is healthy from 80 points on and critical below 50, and no improvement leads into a worse one. */
  lemma {:induction false} BandsFollowScores(round: real -> real, better: Factor -> real, values: Factor -> real,
                                             sampleSize: int)
    requires RoundsToCents(round)
    requires forall f :: AtLeastAsGood(f, better(f), values(f))
    ensures var r, s := HealthOf(round, better, sampleSize), HealthOf(round, values, sampleSize);
            && (r.band == Healthy <==> r.score >= 80.0)
            && (r.band == Critical <==> r.score < 50.0)
            && (s.band == Healthy ==> r.band == Healthy)
            && (r.band == Critical ==> s.band == Critical)
  {
    BetterFactorsScoreNoLess(round, better, values, sampleSize);
    BandIs(round, better, sampleSize);
    BandIs(round, values, sampleSize);
    hide *;
  }

  lemma {:induction false} BandIs(round: real -> real, values: Factor -> real, sampleSize: int)
    ensures var r := HealthOf(round, values, sampleSize);
            && (r.band == Healthy <==> r.score >= 80.0)
            && (r.band == Critical <==> r.score < 50.0)
  {
    hide Total, Penalties, FactorScores;
  }

  // ----- the two ends of the scale, and between them

  /** At or inside the bound the merchant is expected to keep. */
  predicate IsHealthy(f: Factor, value: real) {
    match f
    case SuccessRate => value >= 0.95
    case FailureRate => value <= 0.05
    case RefundRate => value <= 0.08
    case DisputeRate => value <= 0.01
    case WebhookReliability => value >= 0.97
    case AnomalySeverity => value <= 0.15
  }

  /** At or beyond the bound where all points are lost. */
  predicate IsCritical(f: Factor, value: real) {
    match f
    case SuccessRate => value <= 0.70
    case FailureRate => value >= 0.30
    case RefundRate => value >= 0.30
    case DisputeRate => value >= 0.05
    case WebhookReliability => value <= 0.80
    case AnomalySeverity => value >= 0.75
  }

  lemma {:induction false} RatioAtTheEnds(f: Factor, value: real)
    ensures IsHealthy(f, value) <==> PenaltyRatio(f, value) == 0.0
    ensures IsCritical(f, value) <==> PenaltyRatio(f, value) == 1.0
  {
    match f
    case _ =>
  }

  /** Between its bounds a factor loses points in proportion to the way it has gone. */
  lemma {:induction false} LosesInProportion(f: Factor, way: real)
    requires 0.0 <= way <= 1.0
    ensures var b := BoundsOf(f);
            PenaltyRatio(f, b.healthy + way * (b.critical - b.healthy)) == way
  {
    var b := BoundsOf(f);
    var span := if b.higherIsBetter then b.healthy - b.critical else b.critical - b.healthy;
    assert span > 0.0 by {
      match f
      case _ =>
    }
    hide BoundsOf;
    var value := b.healthy + way * (b.critical - b.healthy);
    assert way * span <= span by {
      Grows(way, span);
    }
    assert value == if b.higherIsBetter then b.healthy - way * span else b.healthy + way * span by {
      assert b.critical - b.healthy == if b.higherIsBetter then -span else span;
      assert way * -span == -(way * span);
    }
    Divided(way, span);
  }

  lemma {:induction false} Grows(way: real, span: real)
    requires 0.0 <= way <= 1.0 && span > 0.0
    ensures 0.0 <= way * span <= span
    ensures way * span == span ==> way == 1.0
    ensures way * span == 0.0 ==> way == 0.0
  {
    assert (1.0 - way) * span >= 0.0;
  }

  lemma {:induction false} Divided(way: real, span: real)
    requires span > 0.0
    ensures way * span / span == way
  {
  }

  /** The points lost by the factors that are critical, when every other is healthy. */
  function CriticalCost(values: Factor -> real): real {
    (if IsCritical(SuccessRate, values(SuccessRate)) then 20.0 else 0.0)
    + (if IsCritical(FailureRate, values(FailureRate)) then 20.0 else 0.0)
    + (if IsCritical(RefundRate, values(RefundRate)) then 10.0 else 0.0)
    + (if IsCritical(DisputeRate, values(DisputeRate)) then 20.0 else 0.0)
    + (if IsCritical(WebhookReliability, values(WebhookReliability)) then 15.0 else 0.0)
    + (if IsCritical(AnomalySeverity, values(AnomalySeverity)) then 15.0 else 0.0)
  }

  function Left(f: Factor, value: real): real {
    if IsCritical(f, value) then 0.0 else 100.0 * Weight(f)
  }

  lemma {:induction false} LeftOver(round: real -> real, f: Factor, value: real)
    requires RoundsToCents(round) && (IsHealthy(f, value) || IsCritical(f, value))
    ensures Share(f, FactorScore(round, f, value)) == Left(f, value)
    ensures PenaltyFor(round, f, value) == [] <==> IsHealthy(f, value)
  {
    RatioAtTheEnds(f, value);
  }

  lemma {:induction false} TotalOfEnds(round: real -> real, values: Factor -> real)
    requires RoundsToCents(round)
    requires forall f :: IsHealthy(f, values(f)) || IsCritical(f, values(f))
    ensures Total(round, values, 6)
         == Left(SuccessRate, values(SuccessRate)) + Left(FailureRate, values(FailureRate))
            + Left(RefundRate, values(RefundRate)) + Left(DisputeRate, values(DisputeRate))
            + Left(WebhookReliability, values(WebhookReliability)) + Left(AnomalySeverity, values(AnomalySeverity))
  {
    NoFactors(round, values);
    for n := 0 to 6
      invariant Total(round, values, n) == LeftUpTo(values, n)
    {
      hide Total, LeftUpTo, FactorScore, Share, Left, PenaltyFor, RoundsToCents, IsHealthy, IsCritical, FactorAt;
      NextFactor(round, values, n);
      LeftOver(round, FactorAt(n), values(FactorAt(n)));
      NextLeft(values, n);
    }
    assert FACTORS[0] == SuccessRate && FACTORS[5] == AnomalySeverity;
    hide Total, Left, IsHealthy, IsCritical;
    NextLeft(values, 0);
    NextLeft(values, 1);
    NextLeft(values, 2);
    NextLeft(values, 3);
    NextLeft(values, 4);
    NextLeft(values, 5);
  }

  function LeftUpTo(values: Factor -> real, n: nat): real
    requires n <= 6
  {
    if n == 0 then 0.0 else LeftUpTo(values, n - 1) + Left(FactorAt(n - 1), values(FactorAt(n - 1)))
  }

  lemma {:induction false} NextLeft(values: Factor -> real, n: nat)
    requires n < 6
    ensures LeftUpTo(values, n + 1) == LeftUpTo(values, n) + Left(FactorAt(n), values(FactorAt(n)))
  {
    hide FactorAt, Left;
  }

  /** When every factor is at one end of its scale, the score is 100 less the weights of those at the wrong end: 100 if
      all are healthy, 0 if all are critical. */
  lemma {:induction false} CriticalFactorsCostTheirWeight(round: real -> real, values: Factor -> real, sampleSize: int)
    requires RoundsToCents(round) && sampleSize != 0
    requires forall f :: IsHealthy(f, values(f)) || IsCritical(f, values(f))
    ensures HealthOf(round, values, sampleSize).score == round(100.0 - CriticalCost(values))
    ensures (forall f :: IsHealthy(f, values(f))) ==> HealthOf(round, values, sampleSize).score == 100.0
    ensures (forall f :: IsCritical(f, values(f))) ==> HealthOf(round, values, sampleSize).score == 0.0
  {
    TotalOfEnds(round, values);
    hide Total, Penalties, IsHealthy, IsCritical;
    CostIs(values);
    forall f | IsHealthy(f, values(f)) ensures !IsCritical(f, values(f)) {
      NotBoth(f, values(f));
    }
  }

  lemma {:induction false} NotBoth(f: Factor, value: real)
    ensures !IsHealthy(f, value) || !IsCritical(f, value)
  {
    match f
    case _ =>
  }

  lemma {:induction false} CostIs(values: Factor -> real)
    ensures Left(SuccessRate, values(SuccessRate)) + Left(FailureRate, values(FailureRate))
            + Left(RefundRate, values(RefundRate)) + Left(DisputeRate, values(DisputeRate))
            + Left(WebhookReliability, values(WebhookReliability)) + Left(AnomalySeverity, values(AnomalySeverity))
         == 100.0 - CriticalCost(values)
  {
    hide IsCritical;
  }

  /** A penalty is shown for exactly the factors outside their healthy range. */
  lemma {:induction false} PenalisedIffUnhealthy(round: real -> real, values: Factor -> real, sampleSize: int,
                                                 f: Factor)
    requires sampleSize != 0
    ensures (exists p :: p in HealthOf(round, values, sampleSize).penalties && p.factor == Some(f))
       <==> !IsHealthy(f, values(f))
  {
    PenalisedUpTo(round, values, 6, f);
    assert FACTORS[0] == SuccessRate && FACTORS[1] == FailureRate && FACTORS[2] == RefundRate
        && FACTORS[3] == DisputeRate && FACTORS[4] == WebhookReliability && FACTORS[5] == AnomalySeverity;
    hide Penalties, IsHealthy;
    assert exists k :: 0 <= k < 6 && FactorAt(k) == f by {
      match f
      case SuccessRate => assert FactorAt(0) == f;
      case FailureRate => assert FactorAt(1) == f;
      case RefundRate => assert FactorAt(2) == f;
      case DisputeRate => assert FactorAt(3) == f;
      case WebhookReliability => assert FactorAt(4) == f;
      case AnomalySeverity => assert FactorAt(5) == f;
    }
  }

  lemma {:induction false} PenalisedUpTo(round: real -> real, values: Factor -> real, n: nat, f: Factor)
    requires n <= 6
    ensures (exists p :: p in Penalties(round, values, n) && p.factor == Some(f)) <==>
            !IsHealthy(f, values(f)) && exists k :: 0 <= k < n && FactorAt(k) == f
  {
    if n > 0 {
      var last := FactorAt(n - 1);
      PenalisedUpTo(round, values, n - 1, f);
      RatioIsAShare(last, values(last));
      RatioAtTheEnds(last, values(last));
      var more := PenaltyFor(round, last, values(last));
      assert more != [] ==> more[0] in more;
      hide PenaltyRatio, IsHealthy, IsCritical, FactorAt;
      assert Penalties(round, values, n) == Penalties(round, values, n - 1) + more;
    }
  }
}
