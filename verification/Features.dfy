/** Feature rows of the payments, in order of creation, computed from the past of each merchant only. */
module Features {
  import opened Wrappers
  import opened Sums

  /** `createdAt` and `capturedAt` are in seconds. */
  datatype Payment = Payment(
    id: string, merchantId: string, methodId: string, amount: int, createdAt: real, hour: int, weekday: int,
    status: string, capturedAt: Option<real>)

  datatype FeatureRow = FeatureRow(
    id: string, merchantId: string, failed: bool, latency: Option<real>, values: seq<real>)

  /** A logarithm and a lower-casing of which nothing is assumed. */
  datatype Numeric = Numeric(log1p: real -> real, lower: string -> string)

  type History = seq<(bool, int)>

  function Failures(history: History): (n: nat)
    ensures n <= |history|
  {
    if history == [] then 0
    else Failures(history[..|history| - 1]) + if history[|history| - 1].0 then 1 else 0
  }

  function Amounts(history: History): int {
    if history == [] then 0 else Amounts(history[..|history| - 1]) + history[|history| - 1].1
  }

  function Max(a: real, b: real): real {
    if a >= b then a else b
  }

  function Min(a: real, b: real): real {
    if a <= b then a else b
  }

  function OneIf(b: bool): real {
    if b then 1.0 else 0.0
  }

  function Encoded(num: Numeric, p: Payment, failRate: real, count: nat, amountMean: real): seq<real> {
    var methodId := num.lower(p.methodId);
    [num.log1p(Max(p.amount as real, 0.0)),
     p.hour as real,
     p.weekday as real,
     OneIf(methodId == "card"),
     OneIf(methodId == "upi"),
     OneIf(methodId == "netbanking"),
     OneIf(methodId == "wallet"),
     Max(0.0, Min(1.0, failRate)),
     num.log1p(Max(count as real, 0.0)),
     num.log1p(Max(amountMean, 0.0))]
  }

  function FailRate(history: History): real {
    if history == [] then 0.0 else Failures(history) as real / |history| as real
  }

  function AmountMean(history: History): real {
    if history == [] then 0.0 else Amounts(history) as real / |history| as real
  }

  predicate Failed(p: Payment) {
    p.status == "failed"
  }

  function Latency(p: Payment): Option<real> {
    if p.status == "succeeded" && p.capturedAt.Some? then Some(Max(0.0, p.capturedAt.value - p.createdAt)) else None
  }

  function Row(num: Numeric, p: Payment, history: History): FeatureRow {
    FeatureRow(p.id, p.merchantId, Failed(p), Latency(p),
               Encoded(num, p, FailRate(history), |history|, AmountMean(history)))
  }

  /** The payments of the merchant in this stretch: whether each failed, and its amount. */
  function HistoryOf(payments: seq<Payment>, merchantId: string): History {
    if payments == [] then [] else
    var last := payments[|payments| - 1];
    HistoryOf(payments[..|payments| - 1], merchantId)
    + if last.merchantId == merchantId then [(Failed(last), last.amount)] else []
  }

  /** The row of a payment looks at the payments strictly before it. */
  function Rows(num: Numeric, payments: seq<Payment>): (rows: seq<FeatureRow>)
    ensures |rows| == |payments|
    ensures forall i :: 0 <= i < |rows| ==>
              rows[i] == Row(num, payments[i], HistoryOf(payments[..i], payments[i].merchantId))
  {
    seq(|payments|, i requires 0 <= i < |payments| =>
      Row(num, payments[i], HistoryOf(payments[..i], payments[i].merchantId)))
  }

  /** What the dictionary of running histories holds for a merchant, one without an entry having no past. */
  function Recalled(prior: map<string, History>, merchantId: string): History {
    if merchantId in prior then prior[merchantId] else []
  }

  lemma {:induction false} NoHistory()
    ensures forall m :: HistoryOf([], m) == []
  {
  }

  lemma {:induction false} HistoryNext(payments: seq<Payment>, i: nat, m: string)
    requires i < |payments|
    ensures HistoryOf(payments[..i + 1], m)
         == if payments[i].merchantId == m
            then HistoryOf(payments[..i], m) + [(Failed(payments[i]), payments[i].amount)]
            else HistoryOf(payments[..i], m)
  {
    assert payments[..i + 1][..i] == payments[..i];
  }

  method LoadFeatureRows(num: Numeric, payments: seq<Payment>) returns (rows: seq<FeatureRow>)
    ensures rows == Rows(num, payments)
  {
    hide Row, HistoryOf;
    var prior: map<string, History> := map[];
    NoHistory();
    rows := [];
    for i := 0 to |payments|
      invariant forall m :: Recalled(prior, m) == HistoryOf(payments[..i], m)
      invariant |rows| == i
      invariant forall k :: 0 <= k < i ==>
                  rows[k] == Row(num, payments[k], HistoryOf(payments[..k], payments[k].merchantId))
    {
      var p := payments[i];
      if p.merchantId !in prior {
        prior := prior[p.merchantId := []];
      }
      var history := prior[p.merchantId];
      assert history == HistoryOf(payments[..i], p.merchantId);
      rows := rows + [Row(num, p, history)];
      ghost var before := prior;
      assert forall m :: Recalled(before, m) == HistoryOf(payments[..i], m);
      prior := prior[p.merchantId := history + [(Failed(p), p.amount)]];
      forall m ensures Recalled(prior, m) == HistoryOf(payments[..i + 1], m) {
        HistoryNext(payments, i, m);
        assert m != p.merchantId ==> Recalled(prior, m) == Recalled(before, m);
      }
    }
  }

  // ----- no leakage

  /** Everything about a payment that is known when it is made. */
  ghost predicate SameAtCreation(p: Payment, q: Payment) {
    q == p.(status := q.status, capturedAt := q.capturedAt)
  }

  /** The features of a row depend on what was known when its payment was made: neither its own outcome, nor anything
      about later payments, nor whether there are any, changes them. */
  lemma {:induction false} FeaturesDoNotLeak(num: Numeric, ps: seq<Payment>, qs: seq<Payment>, i: nat)
    requires i < |ps| && i < |qs|
    requires ps[..i] == qs[..i] && SameAtCreation(ps[i], qs[i])
    ensures Rows(num, ps)[i].values == Rows(num, qs)[i].values
    ensures forall k :: 0 <= k < i ==> Rows(num, ps)[k] == Rows(num, qs)[k]
  {
    hide Encoded, FailRate, AmountMean, HistoryOf;
    SameValues(num, ps[i], qs[i], HistoryOf(ps[..i], ps[i].merchantId));
    forall k | 0 <= k < i ensures Rows(num, ps)[k] == Rows(num, qs)[k] {
      assert ps[..i][k] == qs[..i][k];
      assert ps[..k] == ps[..i][..k] && qs[..k] == qs[..i][..k];
    }
  }

  lemma {:induction false} SameValues(num: Numeric, p: Payment, q: Payment, history: History)
    requires SameAtCreation(p, q)
    ensures Row(num, p, history).values == Row(num, q, history).values
  {
  }

  lemma {:induction false} LaterPaymentsChangeNoRow(num: Numeric, payments: seq<Payment>, more: seq<Payment>)
    ensures Rows(num, payments) <= Rows(num, payments + more)
  {
    hide Row, HistoryOf;
    forall i | 0 <= i < |payments| ensures Rows(num, payments)[i] == Rows(num, payments + more)[i] {
      assert (payments + more)[..i] == payments[..i];
    }
  }

  // ----- what the history is

  /** Is payment k one to the merchant? */
  function PaidTo(payments: seq<Payment>, merchantId: string): nat -> bool {
    (k: nat) => k < |payments| && payments[k].merchantId == merchantId
  }

  function FailedTo(payments: seq<Payment>, merchantId: string): nat -> bool {
    (k: nat) => k < |payments| && payments[k].merchantId == merchantId && payments[k].status == "failed"
  }

  function Below(n: nat, test: nat -> bool): set<nat> {
    set k: nat | k < n && test(k)
  }

  lemma {:induction false} NextBelow(n: nat, test: nat -> bool)
    ensures |Below(n + 1, test)| == |Below(n, test)| + if test(n) then 1 else 0
  {
    if test(n) {
      assert Below(n + 1, test) == Below(n, test) + {n};
    } else {
      assert Below(n + 1, test) == Below(n, test);
    }
  }

  /** The payments of the merchant among the first n. */
  ghost function PaymentsOf(payments: seq<Payment>, n: nat, merchantId: string): set<nat>
    requires n <= |payments|
  {
    Below(n, PaidTo(payments, merchantId))
  }

  ghost function FailuresOf(payments: seq<Payment>, n: nat, merchantId: string): set<nat>
    requires n <= |payments|
  {
    Below(n, FailedTo(payments, merchantId))
  }

  lemma {:induction false} OneMoreFailure(history: History, failed: bool, amount: int)
    ensures Failures(history + [(failed, amount)]) == Failures(history) + if failed then 1 else 0
  {
    assert (history + [(failed, amount)])[..|history|] == history;
  }

  lemma {:induction false} OneMorePayment(payments: seq<Payment>, n: nat, merchantId: string)
    requires n < |payments|
    ensures |PaymentsOf(payments, n + 1, merchantId)|
         == |PaymentsOf(payments, n, merchantId)| + (if PaidTo(payments, merchantId)(n) then 1 else 0)
    ensures |FailuresOf(payments, n + 1, merchantId)|
         == |FailuresOf(payments, n, merchantId)| + (if FailedTo(payments, merchantId)(n) then 1 else 0)
  {
    hide PaidTo, FailedTo, Below;
    NextBelow(n, PaidTo(payments, merchantId));
    NextBelow(n, FailedTo(payments, merchantId));
  }

  lemma {:induction false} HistoryCounts(payments: seq<Payment>, n: nat, merchantId: string)
    requires n <= |payments|
    ensures |HistoryOf(payments[..n], merchantId)| == |PaymentsOf(payments, n, merchantId)|
    ensures Failures(HistoryOf(payments[..n], merchantId)) == |FailuresOf(payments, n, merchantId)|
  {
    if n > 0 {
      hide HistoryOf, Failures, PaymentsOf, FailuresOf, Failed;
      var k := n - 1;
      HistoryCounts(payments, k, merchantId);
      HistoryNext(payments, k, merchantId);
      OneMorePayment(payments, k, merchantId);
      OneMoreFailure(HistoryOf(payments[..k], merchantId), Failed(payments[k]), payments[k].amount);
    }
  }

  /** The fail-rate feature of a payment is the share of the merchant's earlier payments that failed. It lies between
      0 and 1, so the clamp around it changes nothing. */
  lemma {:induction false} FailRateIsTheShareOfFailures(num: Numeric, payments: seq<Payment>, i: nat)
    requires i < |payments|
    ensures var m := payments[i].merchantId;
            var rate := Rows(num, payments)[i].values[7];
            && 0.0 <= rate <= 1.0
            && rate * |PaymentsOf(payments, i, m)| as real == |FailuresOf(payments, i, m)| as real
            && rate == FailRate(HistoryOf(payments[..i], m))
            && (PaymentsOf(payments, i, m) == {} ==> rate == 0.0)
  {
    hide HistoryOf, PaymentsOf, FailuresOf, Failures;
    var m := payments[i].merchantId;
    var history := HistoryOf(payments[..i], m);
    HistoryCounts(payments, i, m);
    RateIsBounded(history);
    hide FailRate, Encoded;
    ClampedRate(num, payments[i], history);
  }

  lemma {:induction false} ClampedRate(num: Numeric, p: Payment, history: History)
    requires 0.0 <= FailRate(history) <= 1.0
    ensures |Row(num, p, history).values| == 10 && Row(num, p, history).values[7] == FailRate(history)
  {
    hide FailRate, AmountMean;
  }

  lemma {:induction false} RateIsBounded(history: History)
    ensures 0.0 <= FailRate(history) <= 1.0
    ensures FailRate(history) * |history| as real == Failures(history) as real
    ensures history == [] ==> FailRate(history) == 0.0
  {
    hide Failures;
    if history != [] {
      ShareIsBounded(Failures(history), |history|);
    } else {
      assert Failures(history) == 0;
    }
  }

  lemma {:induction false} ShareIsBounded(part: nat, whole: nat)
    requires part <= whole && whole > 0
    ensures 0.0 <= part as real / whole as real <= 1.0
    ensures part as real / whole as real * whole as real == part as real
  {
  }

  /** The label of a row is whether its payment has the status "failed", and it has a latency exactly when the payment
      succeeded and was captured: the time between, never negative. */
  lemma {:induction false} LabelsAreOutcomes(num: Numeric, payments: seq<Payment>, i: nat)
    requires i < |payments|
    ensures var p, row := payments[i], Rows(num, payments)[i];
            && row.id == p.id && row.merchantId == p.merchantId
            && (row.failed <==> p.status == "failed")
            && (row.latency.Some? <==> p.status == "succeeded" && p.capturedAt.Some?)
            && (row.latency.Some? ==>
                  row.latency.value >= 0.0
                  && row.latency.value >= p.capturedAt.value - p.createdAt
                  && (row.latency.value > 0.0 ==> row.latency.value == p.capturedAt.value - p.createdAt))
  {
    hide Encoded, HistoryOf, AmountMean, FailRate;
  }

  function AmountTo(payments: seq<Payment>, merchantId: string): nat -> int {
    (k: nat) => if k < |payments| && payments[k].merchantId == merchantId then payments[k].amount else 0
  }

  lemma {:induction false} HistoryAmounts(payments: seq<Payment>, n: nat, merchantId: string)
    requires n <= |payments|
    ensures Amounts(HistoryOf(payments[..n], merchantId)) == Sum(n, AmountTo(payments, merchantId))
  {
    if n > 0 {
      hide HistoryOf;
      HistoryAmounts(payments, n - 1, merchantId);
      HistoryNext(payments, n - 1, merchantId);
      OneMoreAmount(HistoryOf(payments[..n - 1], merchantId), Failed(payments[n - 1]), payments[n - 1].amount);
      hide Amounts, Failed;
    }
  }

  lemma {:induction false} OneMoreAmount(history: History, failed: bool, amount: int)
    ensures Amounts(history + [(failed, amount)]) == Amounts(history) + amount
  {
    assert (history + [(failed, amount)])[..|history|] == history;
  }

  /** What the other features of a payment are: its own amount and time, one flag at most for its method, and the number
      and the mean amount of the merchant's earlier payments, the logarithm taken of what is not negative. */
  lemma {:induction false} FeaturesAre(num: Numeric, payments: seq<Payment>, i: nat) returns (mean: real)
    requires i < |payments|
    ensures var p := payments[i];
            var count := |PaymentsOf(payments, i, p.merchantId)|;
            var values := Rows(num, payments)[i].values;
            && |values| == 10
            && (p.amount >= 0 ==> values[0] == num.log1p(p.amount as real))
            && values[1] == p.hour as real && values[2] == p.weekday as real
            && (values[3] == 1.0 <==> num.lower(p.methodId) == "card")
            && (values[4] == 1.0 <==> num.lower(p.methodId) == "upi")
            && (values[5] == 1.0 <==> num.lower(p.methodId) == "netbanking")
            && (values[6] == 1.0 <==> num.lower(p.methodId) == "wallet")
            && 0.0 <= values[3] + values[4] + values[5] + values[6] <= 1.0
            && values[8] == num.log1p(count as real)
            && mean * count as real == Sum(i, AmountTo(payments, p.merchantId)) as real
            && (count == 0 ==> mean == 0.0)
            && (mean >= 0.0 ==> values[9] == num.log1p(mean))
  {
    hide HistoryOf, PaymentsOf, FailuresOf, Failures, Sum, FailRate;
    var p := payments[i];
    var history := HistoryOf(payments[..i], p.merchantId);
    mean := AmountMean(history);
    HistoryCounts(payments, i, p.merchantId);
    HistoryAmounts(payments, i, p.merchantId);
    MeanTimesCount(history);
    hide AmountMean, Amounts;
    EncodedIs(num, p, FailRate(history), |history|, mean);
  }

  lemma {:induction false} MeanTimesCount(history: History)
    ensures AmountMean(history) * |history| as real == Amounts(history) as real
  {
    if history == [] {
      assert Amounts(history) == 0;
    } else {
      Undivided(Amounts(history) as real, |history| as real);
    }
  }

  lemma {:induction false} Undivided(a: real, b: real)
    requires b != 0.0
    ensures a / b * b == a
  {
  }

  lemma {:induction false} EncodedIs(num: Numeric, p: Payment, failRate: real, count: nat, mean: real)
    ensures var values := Encoded(num, p, failRate, count, mean);
            && |values| == 10
            && (p.amount >= 0 ==> values[0] == num.log1p(p.amount as real))
            && values[1] == p.hour as real && values[2] == p.weekday as real
            && (values[3] == 1.0 <==> num.lower(p.methodId) == "card")
            && (values[4] == 1.0 <==> num.lower(p.methodId) == "upi")
            && (values[5] == 1.0 <==> num.lower(p.methodId) == "netbanking")
            && (values[6] == 1.0 <==> num.lower(p.methodId) == "wallet")
            && 0.0 <= values[3] + values[4] + values[5] + values[6] <= 1.0
            && values[8] == num.log1p(count as real)
            && (mean >= 0.0 ==> values[9] == num.log1p(mean))
  {
    assert "card"[0] != "upi"[0] && "card"[0] != "netbanking"[0] && "card"[0] != "wallet"[0];
    assert "upi"[0] != "netbanking"[0] && "upi"[0] != "wallet"[0] && "netbanking"[0] != "wallet"[0];
  }
}
