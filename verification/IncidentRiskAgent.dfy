/** Hypotheses ranked from the collected evidence only. */
module IncidentRiskAgent {
  import opened Schemas

  const FALLBACK_CAUSE := "Insufficient structured evidence to name a root cause"
  const PROCESSOR_CAUSE := "UPI gateway timeouts at the method processor"
  const MODEL_CAUSE := "Elevated model-predicted failure risk in the window"
  const INTEGRITY_PASSED := "Integrity catalog found no consistency violations"
  const INTEGRITY_FAILED := "Integrity catalog found consistency violations"
  const WEBHOOK_CAUSE := "Webhook delivery delays after successful capture"

  /** The ids of the items that satisfy a test, in order. */
  function IdsWhere(items: seq<EvidenceItem>, test: EvidenceItem -> bool): (ids: seq<string>)
    ensures forall id :: id in ids ==> id in Ids(items)
  {
    if items == [] then [] else
    assert items == [items[0]] + items[1..];
    (if test(items[0]) then [items[0].id] else []) + IdsWhere(items[1..], test)
  }

  function From(source: Source): EvidenceItem -> bool {
    (item: EvidenceItem) => item.source == source
  }

  function MentionsTimeout(lex: Lexicon): EvidenceItem -> bool {
    (item: EvidenceItem) => lex.lowerHas(item.text, "gateway_timeout") || lex.lowerHas(item.text, "timeout")
  }

  function Joined(items: seq<EvidenceItem>): string {
    if items == [] then "" else
    if |items| == 1 then items[0].text else items[0].text + " " + Joined(items[1..])
  }

  predicate BreakdownHas(metrics: seq<MetricResult>, code: string) {
    exists m :: m in metrics && m.metric == "error_code_breakdown" && m.value.Breakdown? && code in m.value.codes
  }

  function ProcessorHypothesis(lex: Lexicon, evidence: seq<EvidenceItem>, metrics: seq<MetricResult>)
    : seq<Hypothesis>
  {
    if lex.upperHas(Joined(evidence), "GATEWAY_TIMEOUT") || BreakdownHas(metrics, "GATEWAY_TIMEOUT") then
      var ids := IdsWhere(evidence, MentionsTimeout(lex));
      [Hypothesis(PROCESSOR_CAUSE, Take(ids, 5), 0.82, "processor")]
    else []
  }

  function ModelHypothesis(evidence: seq<EvidenceItem>): seq<Hypothesis> {
    if exists item :: item in evidence && item.source == Ml && item.riskClass == "HIGH" then
      var ids := IdsWhere(evidence, From(Ml));
      [Hypothesis(MODEL_CAUSE, Take(ids, 5), 0.55, "model")]
    else []
  }

  function IntegrityHypothesis(evidence: seq<EvidenceItem>): seq<Hypothesis> {
    if exists item :: item in evidence && item.source == Integrity then
      var ids := IdsWhere(evidence, From(Integrity));
      if forall item :: item in evidence && item.source == Integrity ==> item.passed then
        [Hypothesis(INTEGRITY_PASSED, Take(ids, 5), 0.75, "integrity")]
      else
        [Hypothesis(INTEGRITY_FAILED, Take(ids, 5), 0.7, "integrity")]
    else []
  }

  function WebhookHypothesis(evidence: seq<EvidenceItem>): seq<Hypothesis> {
    if exists item :: item in evidence && item.source == Webhook && item.kind == "delayed" then
      var ids := IdsWhere(evidence, From(Webhook));
      [Hypothesis(WEBHOOK_CAUSE, Take(ids, 5), 0.8, "webhooks")]
    else []
  }

  function Candidates(lex: Lexicon, evidence: seq<EvidenceItem>, metrics: seq<MetricResult>): seq<Hypothesis> {
    var found := ProcessorHypothesis(lex, evidence, metrics) + ModelHypothesis(evidence)
                 + IntegrityHypothesis(evidence) + WebhookHypothesis(evidence);
    if found == [] then [Hypothesis(FALLBACK_CAUSE, Take(Ids(evidence), 3), 0.2, "unknown")] else found
  }

  /** A hypothesis without support cites the first items of the bundle instead. */
  function Filled(h: Hypothesis, ids: seq<string>): Hypothesis {
    if h.supportingIds != [] || ids == [] then h else h.(supportingIds := Take(ids, 3))
  }

  function Hypotheses(lex: Lexicon, evidence: seq<EvidenceItem>, metrics: seq<MetricResult>)
    : (hypotheses: seq<Hypothesis>)
  {
    var found := Candidates(lex, evidence, metrics);
    seq(|found|, i requires 0 <= i < |found| => Filled(found[i], Ids(evidence)))
  }

  method AddProcessor(before: seq<Hypothesis>, lex: Lexicon, evidence: seq<EvidenceItem>, metrics: seq<MetricResult>)
    returns (hypotheses: seq<Hypothesis>)
    ensures hypotheses == before + ProcessorHypothesis(lex, evidence, metrics)
  {
    hypotheses := before;
    if lex.upperHas(Joined(evidence), "GATEWAY_TIMEOUT") || BreakdownHas(metrics, "GATEWAY_TIMEOUT") {
      var found := IdsWhere(evidence, MentionsTimeout(lex));
      hypotheses := hypotheses + [Hypothesis(PROCESSOR_CAUSE, Take(found, 5), 0.82, "processor")];
    }
  }

  method AddModel(before: seq<Hypothesis>, evidence: seq<EvidenceItem>) returns (hypotheses: seq<Hypothesis>)
    ensures hypotheses == before + ModelHypothesis(evidence)
  {
    hypotheses := before;
    if exists item :: item in evidence && item.source == Ml && item.riskClass == "HIGH" {
      hypotheses := hypotheses + [Hypothesis(MODEL_CAUSE, Take(IdsWhere(evidence, From(Ml)), 5), 0.55, "model")];
    }
  }

  method AddIntegrity(before: seq<Hypothesis>, evidence: seq<EvidenceItem>) returns (hypotheses: seq<Hypothesis>)
    ensures hypotheses == before + IntegrityHypothesis(evidence)
  {
    hypotheses := before;
    if exists item :: item in evidence && item.source == Integrity {
      var passed := forall item :: item in evidence && item.source == Integrity ==> item.passed;
      var found := Take(IdsWhere(evidence, From(Integrity)), 5);
      hypotheses := hypotheses + [Hypothesis(if passed then INTEGRITY_PASSED else INTEGRITY_FAILED, found,
                                             if passed then 0.75 else 0.7, "integrity")];
    }
  }

  method AddWebhook(before: seq<Hypothesis>, evidence: seq<EvidenceItem>) returns (hypotheses: seq<Hypothesis>)
    ensures hypotheses == before + WebhookHypothesis(evidence)
  {
    hypotheses := before;
    if exists item :: item in evidence && item.source == Webhook && item.kind == "delayed" {
      var found := IdsWhere(evidence, From(Webhook));
      hypotheses := hypotheses + [Hypothesis(WEBHOOK_CAUSE, Take(found, 5), 0.8, "webhooks")];
    }
  }

  method ProposeHypotheses(lex: Lexicon, evidence: seq<EvidenceItem>, metrics: seq<MetricResult>)
    returns (filled: seq<Hypothesis>)
    ensures filled == Hypotheses(lex, evidence, metrics)
  {
    hide ProcessorHypothesis, ModelHypothesis, IntegrityHypothesis, WebhookHypothesis;
    var ids := Ids(evidence);
    var hypotheses := AddProcessor([], lex, evidence, metrics);
    hypotheses := AddModel(hypotheses, evidence);
    hypotheses := AddIntegrity(hypotheses, evidence);
    hypotheses := AddWebhook(hypotheses, evidence);
    if hypotheses == [] {
      hypotheses := hypotheses + [Hypothesis(FALLBACK_CAUSE, Take(ids, 3), 0.2, "unknown")];
    }
    assert hypotheses == Candidates(lex, evidence, metrics);
    hide Candidates;
    filled := [];
    for i := 0 to |hypotheses|
      invariant |filled| == i
      invariant forall k :: 0 <= k < i ==> filled[k] == Filled(hypotheses[k], ids)
    {
      filled := filled + [Filled(hypotheses[i], ids)];
    }
  }

  ghost predicate DistinctCauses(hypotheses: seq<Hypothesis>) {
    forall i, j :: 0 <= i < j < |hypotheses| ==> hypotheses[i].cause != hypotheses[j].cause
  }

  /** Every id a hypothesis cites is one of the given ids. */
  ghost predicate Grounded(hypotheses: seq<Hypothesis>, ids: seq<string>) {
    forall h, id :: h in hypotheses && id in h.supportingIds ==> id in ids
  }

  function CauseRank(cause: string): int {
    match |cause|
    case 44 => 0
    case 51 => 1
    case 49 => 2
    case 46 => 2
    case 48 => 3
    case _ => 4
  }

  lemma {:induction false} CauseRanks()
    ensures CauseRank(PROCESSOR_CAUSE) == 0 && CauseRank(MODEL_CAUSE) == 1
    ensures CauseRank(INTEGRITY_PASSED) == 2 && CauseRank(INTEGRITY_FAILED) == 2
    ensures CauseRank(WEBHOOK_CAUSE) == 3
  {
  }

  ghost predicate Ranked(found: seq<Hypothesis>, low: int, high: int) {
    && (forall i :: 0 <= i < |found| ==> low <= CauseRank(found[i].cause) < high)
    && (forall i, j :: 0 <= i < j < |found| ==> CauseRank(found[i].cause) < CauseRank(found[j].cause))
  }

  lemma {:induction false} RankedAppend(a: seq<Hypothesis>, b: seq<Hypothesis>, low: int, mid: int, high: int)
    requires low <= mid <= high
    requires Ranked(a, low, mid) && Ranked(b, mid, high)
    ensures Ranked(a + b, low, high)
  {
  }

  lemma {:induction false} CandidatesDistinct(lex: Lexicon, evidence: seq<EvidenceItem>, metrics: seq<MetricResult>)
    ensures Candidates(lex, evidence, metrics) != []
    ensures DistinctCauses(Candidates(lex, evidence, metrics))
  {
    var processor, model := ProcessorHypothesis(lex, evidence, metrics), ModelHypothesis(evidence);
    var integrity, webhook := IntegrityHypothesis(evidence), WebhookHypothesis(evidence);
    PartsAreRanked(lex, evidence, metrics);
    hide ProcessorHypothesis, ModelHypothesis, IntegrityHypothesis, WebhookHypothesis, CauseRank;
    RankedAppend(processor, model, 0, 1, 2);
    RankedAppend(processor + model, integrity, 0, 2, 3);
    RankedAppend(processor + model + integrity, webhook, 0, 3, 4);
    RankedIsDistinct(processor + model + integrity + webhook, 0, 4);
  }

  lemma {:induction false} RankedIsDistinct(found: seq<Hypothesis>, low: int, high: int)
    requires Ranked(found, low, high)
    ensures DistinctCauses(found)
  {
  }

  lemma {:induction false} PartsAreRanked(lex: Lexicon, evidence: seq<EvidenceItem>, metrics: seq<MetricResult>)
    ensures Ranked(ProcessorHypothesis(lex, evidence, metrics), 0, 1)
    ensures Ranked(ModelHypothesis(evidence), 1, 2)
    ensures Ranked(IntegrityHypothesis(evidence), 2, 3)
    ensures Ranked(WebhookHypothesis(evidence), 3, 4)
  {
    CauseRanks();
  }

  /** There is always a hypothesis, no two name the same cause, and each cites only collected evidence: at least
      one item of it unless there is none. */
  lemma {:induction false} HypothesesAreGrounded(lex: Lexicon, evidence: seq<EvidenceItem>, metrics: seq<MetricResult>)
    ensures Hypotheses(lex, evidence, metrics) != []
    ensures DistinctCauses(Hypotheses(lex, evidence, metrics))
    ensures Grounded(Hypotheses(lex, evidence, metrics), Ids(evidence))
    ensures evidence != [] ==> forall h :: h in Hypotheses(lex, evidence, metrics) ==> h.supportingIds != []
  {
    CandidatesDistinct(lex, evidence, metrics);
    CandidatesGrounded(lex, evidence, metrics);
    hide Candidates;
    FillingKeeps(Candidates(lex, evidence, metrics), Hypotheses(lex, evidence, metrics), Ids(evidence));
  }

  lemma {:induction false} CandidatesGrounded(lex: Lexicon, evidence: seq<EvidenceItem>, metrics: seq<MetricResult>)
    ensures Grounded(Candidates(lex, evidence, metrics), Ids(evidence))
  {
    PartsAreGrounded(lex, evidence, metrics);
    hide ProcessorHypothesis, ModelHypothesis, IntegrityHypothesis, WebhookHypothesis;
  }

  lemma {:induction false} PartsAreGrounded(lex: Lexicon, evidence: seq<EvidenceItem>, metrics: seq<MetricResult>)
    ensures Grounded(ProcessorHypothesis(lex, evidence, metrics), Ids(evidence))
    ensures Grounded(ModelHypothesis(evidence), Ids(evidence))
    ensures Grounded(IntegrityHypothesis(evidence), Ids(evidence))
    ensures Grounded(WebhookHypothesis(evidence), Ids(evidence))
  {
  }

  lemma {:induction false} FillingKeeps(found: seq<Hypothesis>, filled: seq<Hypothesis>, ids: seq<string>)
    requires |filled| == |found| && forall i :: 0 <= i < |found| ==> filled[i] == Filled(found[i], ids)
    requires DistinctCauses(found) && Grounded(found, ids)
    ensures DistinctCauses(filled) && Grounded(filled, ids)
    ensures ids != [] ==> forall h :: h in filled ==> h.supportingIds != []
  {
    forall h, id | h in filled && id in h.supportingIds ensures id in ids {
      var i :| 0 <= i < |filled| && filled[i] == h;
      assert found[i] in found;
    }
  }
}
