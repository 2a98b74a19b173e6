/** The bound on the number of nodes is met: for every request some texts and some tasks make the run that long. */
module GraphBound {
  import opened Wrappers
  import opened Schemas
  import opened EvidenceMerge
  import opened InvestigationState
  import opened Investigate
  import opened InvestigationGraph
  import opened GraphInvariant
  import opened GraphRuns
  import opened PlannerAgent
  import opened SufficiencyAgent
  import opened IncidentRiskAgent
  import opened VerifierAgent
  import opened WriterAgent
  import opened CriticAgent

  /** Texts in which nothing is recognised but the mention of gateway timeouts: a document is planned, the processor is
      blamed, and the verifier finds nothing to support it. */
  function Stubborn(): Lexicon {
    Lexicon(
      (question: string, family: HintFamily) => false,
      (question: string) => NoModel,
      (question: string) => None,
      (text: string) => {},
      {},
      (text: string) => {},
      (text: string, word: string) => true,
      (text: string, word: string) => false,
      (question: string, summary: string) => [])
  }

  const PAGE := EvidenceItem("doc-1", Doc, "", false, "", "", false)

  /** Tasks that all find the same page, and no deadline. */
  function SamePage(): Env {
    Env(false, (i: nat) => false, (i: nat) => Returned([PAGE], [], None))
  }

  function SamePages(n: nat): (envs: seq<Env>)
    ensures |envs| == n && forall i :: 0 <= i < n ==> envs[i] == SamePage()
  {
    seq(n, i => SamePage())
  }

  /** What keeps such a run going: nothing fails, the page is enough for the plan, and only the last round reaches the
      writer. */
  ghost predicate Long(s: State) {
    && Live(s)
    && (s.node != AtPlanner ==>
          s.plan.Some? && s.plan.value.tasks != [] && forall t :: t in s.plan.value.tasks ==> t.kind == RetrieveDocs)
    && (s.iteration >= 1 ==> PAGE in s.evidence)
    && (s.node == AtPlanner ==> s.iteration == 0)
    && (s.node in {AtWriter, AtCritic, AtEnd} ==> s.iteration == Rounds(s))
  }

  lemma {:induction false} BatchFindsThePage(s: State, k: nat)
    requires 1 <= k <= |s.pending|
    ensures PAGE in After(s, SamePage(), k).evidence
    ensures After(s, SamePage(), k).failures == []
  {
    hide Merged, RagEvents;
    var before := After(s, SamePage(), k - 1);
    if k > 1 {
      BatchFindsThePage(s, k - 1);
    }
    assert (before.evidence + [PAGE])[|before.evidence|] == PAGE;
    LatestWins(before.evidence + [PAGE], |before.evidence|);
  }

  lemma {:induction false} NeverStops(i: nat, n: nat)
    requires i <= n
    ensures Stop(SamePage(), i, n) == n
    decreases n - i
  {
    if i < n {
      NeverStops(i + 1, n);
    }
  }

  lemma {:induction false} InvestigateGoesOn(s: State)
    requires Long(s) && s.node == AtInvestigate && s.pending != []
    ensures Long(InvestigateStep(s, SamePage()))
    ensures Remaining(InvestigateStep(s, SamePage())) == Remaining(s) - 1
  {
    NeverStops(0, |s.pending|);
    BatchFindsThePage(s, |s.pending|);
    hide After, Stop;
  }

  lemma {:induction false} PlannerGoesOn(s: State)
    requires Long(s) && s.node == AtPlanner
    ensures Long(PlannerStep(Stubborn(), s)) && Remaining(PlannerStep(Stubborn(), s)) == Remaining(s) - 1
  {
    var merchant := ResolveMerchant(Stubborn(), s.question, s.merchantId);
    hide ResolveMerchant;
    assert FirstTasks(Stubborn(), s.question, merchant) == [];
    assert PlanTasks(Stubborn(), s.question, merchant) == [Task(Doc1, RetrieveDocs, Some(s.question), merchant)];
  }

  lemma {:induction false} SufficiencyGoesOn(s: State)
    requires Long(s) && s.node == AtSufficiency && s.iteration >= 1
    ensures Long(SufficiencyStep(s)) && Remaining(SufficiencyStep(s)) == Remaining(s) - 1
  {
    assert Present(s.evidence, Doc);
    SufficientIffAllPresent(s.plan, s.evidence);
    hide Judge, Present;
  }

  /** The processor is the leading hypothesis, and its claim is critical and unsupported. */
  lemma {:induction false} TheVerifierWantsMore(evidence: seq<EvidenceItem>, metrics: seq<MetricResult>)
    ensures VerifyAll(Stubborn(), Hypotheses(Stubborn(), evidence, metrics), evidence).needsMoreEvidence
  {
    var hypotheses := Hypotheses(Stubborn(), evidence, metrics);
    TheProcessorLeads(evidence, metrics);
    hide Hypotheses, JoinedTexts, Joined, Known;
    var claim := Check(Stubborn(), hypotheses[0], evidence, true);
    assert !claim.supported && claim.critical;
    var claims := ClaimsFor(Stubborn(), hypotheses, evidence);
    assert claims[0] == claim;
    assert GapsFor(Stubborn(), claims) != [];
  }

  lemma {:induction false} TheProcessorLeads(evidence: seq<EvidenceItem>, metrics: seq<MetricResult>)
    ensures var hypotheses := Hypotheses(Stubborn(), evidence, metrics);
            hypotheses != [] && hypotheses[0].confidence == 0.82 && hypotheses[0].category == "processor"
  {
    hide Joined, BreakdownHas, IdsWhere, ModelHypothesis, IntegrityHypothesis, WebhookHypothesis;
    assert |ProcessorHypothesis(Stubborn(), evidence, metrics)| == 1;
  }

  lemma {:induction false} VerifierGoesOn(s: State)
    requires Inv(Stubborn(), s) && Long(s) && s.node == AtVerifier
    ensures Long(VerifierStep(Stubborn(), s)) && Remaining(VerifierStep(Stubborn(), s)) == Remaining(s) - 1
  {
    TheVerifierWantsMore(s.evidence, s.metrics);
    hide VerifyAll, Hypotheses, Judge, Coherent, MerchantKnown, Clean;
  }

  lemma {:induction false} AggregateGoesOn(s: State)
    requires Long(s) && s.node == AtAggregate
    ensures Long(AggregateStep(s)) && Remaining(AggregateStep(s)) == Remaining(s) - 1
  {
  }

  lemma {:induction false} RefineGoesOn(s: State)
    requires Long(s) && s.node == AtRefine
    ensures Long(RefineStep(s)) && Remaining(RefineStep(s)) == Remaining(s) - 1
  {
    hide QueuedGaps;
  }

  lemma {:induction false} IncidentGoesOn(s: State)
    requires Long(s) && s.node == AtIncident
    ensures Long(IncidentStep(Stubborn(), s)) && Remaining(IncidentStep(Stubborn(), s)) == Remaining(s) - 1
  {
    hide Hypotheses;
  }

  lemma {:induction false} WriterGoesOn(s: State)
    requires Long(s) && s.node == AtWriter
    ensures Long(WriterStep(s)) && Remaining(WriterStep(s)) == Remaining(s) - 1
  {
    hide WriteReport;
  }

  lemma {:induction false} CriticGoesOn(s: State)
    requires Inv(Stubborn(), s) && Long(s) && s.node == AtCritic
    ensures Long(CriticStep(Stubborn(), s)) && Remaining(CriticStep(Stubborn(), s)) == Remaining(s) - 1
  {
    hide Inv, ReviewReport;
    CriticApproves(Stubborn(), s);
  }

  /** One node of the measure goes with every node that runs. */
  lemma {:induction false} EveryStepIsNeeded(s: State)
    requires Inv(Stubborn(), s) && Long(s) && s.node != AtEnd
    ensures Long(Step(Stubborn(), s, SamePage())) && Remaining(Step(Stubborn(), s, SamePage())) == Remaining(s) - 1
  {
    InvestigateHasTasks(s);
    hide Inv, Long, Remaining, PlannerStep, InvestigateStep, AggregateStep, SufficiencyStep, RefineStep, IncidentStep,
      VerifierStep, WriterStep, CriticStep;
    match s.node {
      case AtPlanner => PlannerGoesOn(s);
      case AtInvestigate => InvestigateGoesOn(s);
      case AtAggregate => AggregateGoesOn(s);
      case AtSufficiency => SufficiencyGoesOn(s);
      case AtRefine => RefineGoesOn(s);
      case AtIncident => IncidentGoesOn(s);
      case AtVerifier => VerifierGoesOn(s);
      case AtWriter => WriterGoesOn(s);
      case AtCritic => CriticGoesOn(s);
    }
  }

  lemma {:induction false} InvestigateHasTasks(s: State)
    requires Inv(Stubborn(), s)
    ensures s.node == AtInvestigate ==> s.pending != []
    ensures s.node == AtSufficiency ==> s.iteration >= 1
  {
    hide Clean, Coherent, MerchantKnown;
  }

  /** With N rounds allowed, such a run ends with node 6N + 2 and not before, whatever is asked. */
  lemma {:induction false} TheBoundIsMet(r: Request, n: nat)
    requires n <= 6 * MaxRounds(r) + 2
    ensures var s := Run(Stubborn(), Begin(r), SamePages(n));
            && Long(s) && Remaining(s) == 6 * MaxRounds(r) + 2 - n
            && (s.node == AtEnd <==> n == 6 * MaxRounds(r) + 2)
  {
    hide Inv, Step, Remaining, Long;
    RunKeeps(Stubborn(), r, SamePages(n));
    SomethingRemains(Stubborn(), Run(Stubborn(), Begin(r), SamePages(n)));
    if n == 0 {
      StartIsLong(r);
    } else {
      var before := Run(Stubborn(), Begin(r), SamePages(n - 1));
      TheBoundIsMet(r, n - 1);
      RunKeeps(Stubborn(), r, SamePages(n - 1));
      assert SamePages(n)[..n - 1] == SamePages(n - 1);
      EveryStepIsNeeded(before);
    }
  }

  lemma {:induction false} StartIsLong(r: Request)
    ensures Long(Begin(r)) && Remaining(Begin(r)) == 6 * MaxRounds(r) + 2
  {
  }
}
