/** Which planned categories of evidence are still missing, and the tasks queued for them. */
module SufficiencyAgent {
  import opened Wrappers
  import opened Schemas

  function SourceFor(kind: TaskType): Source {
    match kind
    case RetrieveDocs => Doc
    case QueryMetrics => Metric
    case InspectWebhooks => Webhook
    case CompareMerchants => Metric
    case MerchantHealth => Health
    case ScoreRisk => Ml
    case ScoreRegression => Ml
    case ValidateIntegrity => Integrity
  }

  /** Some item of the source that is not an error report. */
  predicate Present(evidence: seq<EvidenceItem>, source: Source) {
    exists item :: item in evidence && item.source == source && !item.error
  }

  function MissingGaps(tasks: seq<Task>, evidence: seq<EvidenceItem>): seq<EvidenceGap> {
    if tasks == [] then [] else
    var last := tasks[|tasks| - 1];
    MissingGaps(tasks[..|tasks| - 1], evidence)
    + (if Present(evidence, SourceFor(last.kind)) then [] else [EvidenceGap(last.kind, last.query)])
  }

  function Judge(plan: Option<Plan>, evidence: seq<EvidenceItem>): Verdict {
    if plan.None? || plan.value.tasks == [] then
      Verdict(false, [EvidenceGap(RetrieveDocs, None)])
    else
      var missing := MissingGaps(plan.value.tasks, evidence);
      Verdict(missing == [], missing)
  }

  method EvaluateSufficiency(plan: Option<Plan>, evidence: seq<EvidenceItem>) returns (verdict: Verdict)
    ensures verdict == Judge(plan, evidence)
  {
    if plan.None? || plan.value.tasks == [] {
      return Verdict(false, [EvidenceGap(RetrieveDocs, None)]);
    }
    var tasks := plan.value.tasks;
    var present := set item | item in evidence && !item.error :: item.source;
    var missing := [];
    var i := 0;
    while i < |tasks|
      invariant 0 <= i <= |tasks|
      invariant missing == MissingGaps(tasks[..i], evidence)
    {
      assert tasks[..i + 1][..i] == tasks[..i];
      if SourceFor(tasks[i].kind) !in present {
        missing := missing + [EvidenceGap(tasks[i].kind, tasks[i].query)];
      }
      i := i + 1;
    }
    assert tasks[..i] == tasks;
    verdict := Verdict(missing == [], missing);
  }

  /** A gap is listed for exactly the planned tasks whose category is absent. */
  lemma {:induction false} GapsAreTheMissingCategories(tasks: seq<Task>, evidence: seq<EvidenceItem>)
    ensures forall g :: g in MissingGaps(tasks, evidence) <==>
              exists t :: t in tasks && !Present(evidence, SourceFor(t.kind)) && g == EvidenceGap(t.kind, t.query)
  {
    if tasks != [] {
      var front, last := tasks[..|tasks| - 1], tasks[|tasks| - 1];
      GapsAreTheMissingCategories(front, evidence);
      assert tasks == front + [last];
    }
  }

  lemma {:induction false} SufficientIffAllPresent(plan: Option<Plan>, evidence: seq<EvidenceItem>)
    ensures Judge(plan, evidence).sufficient <==>
              && plan.Some? && plan.value.tasks != []
              && forall t :: t in plan.value.tasks ==> Present(evidence, SourceFor(t.kind))
    ensures !Judge(plan, evidence).sufficient ==> Judge(plan, evidence).missing != []
  {
    if plan.Some? && plan.value.tasks != [] {
      GapsAreTheMissingCategories(plan.value.tasks, evidence);
      var missing := MissingGaps(plan.value.tasks, evidence);
      if missing == [] {
        forall t | t in plan.value.tasks ensures Present(evidence, SourceFor(t.kind)) {
          assert EvidenceGap(t.kind, t.query) !in missing;
        }
      } else {
        assert missing[0] in missing;
      }
    }
  }

  function TaskFromGap(gap: EvidenceGap, index: nat): Task {
    Task(Gap(index, gap.nextTask), gap.nextTask, gap.query, None)
  }
}
