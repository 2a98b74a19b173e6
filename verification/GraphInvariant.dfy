/** What holds in every state the graph can reach, node by node. */
module GraphInvariant {
  import opened Wrappers
  import opened Dicts
  import opened Schemas
  import opened EvidenceMerge
  import opened InvestigationState
  import opened Investigate
  import opened InvestigationGraph
  import opened PlannerAgent
  import opened SufficiencyAgent
  import opened IncidentRiskAgent
  import opened VerifierAgent
  import opened WriterAgent
  import opened CriticAgent

  // ----- the trace

  function Writes(trace: seq<Event>): nat {
    if trace == [] then 0 else Writes(trace[..|trace| - 1]) + (if trace[|trace| - 1].Write? then 1 else 0)
  }

  /** Events of branches that no run takes. */
  predicate Forbidden(event: Event) {
    event == KeepPending || event == InvestigateSkip || event == Review(false)
  }

  ghost predicate Clean(trace: seq<Event>, writes: nat) {
    && Writes(trace) == writes
    && (forall e :: e in trace ==> !Forbidden(e))
  }

  lemma {:induction false} WritesAppend(a: seq<Event>, b: seq<Event>)
    ensures Writes(a + b) == Writes(a) + Writes(b)
  {
    if b == [] {
      assert a + b == a;
    } else {
      assert (a + b)[..|a + b| - 1] == a + b[..|b| - 1];
      WritesAppend(a, b[..|b| - 1]);
    }
  }

  lemma {:induction false} CleanAppend(a: seq<Event>, m: nat, b: seq<Event>, n: nat)
    requires Clean(a, m) && Clean(b, n)
    ensures Clean(a + b, m + n)
  {
    WritesAppend(a, b);
  }

  lemma {:induction false} CleanOne(a: seq<Event>, m: nat, e: Event)
    requires Clean(a, m) && !Forbidden(e)
    ensures Clean(a + [e], if e.Write? then m + 1 else m)
  {
    assert (a + [e])[..|a + [e]| - 1] == a;
  }

  lemma {:induction false} CleanTask(b: Batch, task: Task, outcome: Outcome)
    requires Clean(b.trace, 0)
    ensures Clean(AfterTask(b, task, outcome).trace, 0)
  {
    match outcome
    case Raised(_) => CleanOne(b.trace, 0, TaskFailed(task.kind));
    case Returned(_, _, rag) =>
      var middle := if rag.Some? then RagEvents(rag.value) else [];
      NoWrites(middle);
      CleanAppend(b.trace, 0, middle, 0);
      CleanOne(b.trace + middle, 0, RunTask(task.kind));
  }

  lemma {:induction false} CleanBatch(s: State, env: Env, k: nat)
    requires k <= |s.pending|
    ensures Clean(After(s, env, k).trace, 0)
  {
    hide AfterTask;
    if k == 0 {
      assert After(s, env, 0).trace == [];
    } else {
      CleanBatch(s, env, k - 1);
      var before, task, outcome := After(s, env, k - 1), s.pending[k - 1], env.outcome(k - 1);
      CleanTask(before, task, outcome);
      assert After(s, env, k) == AfterTask(before, task, outcome);
    }
  }

  lemma {:induction false} NoWrites(trace: seq<Event>)
    requires forall e :: e in trace ==> !e.Write?
    ensures Writes(trace) == 0
  {
    if trace != [] {
      NoWrites(trace[..|trace| - 1]);
    }
  }

  // ----- the invariant

  /** Hypotheses and claims are consistent with each other and with the evidence, fresh or stale. */
  ghost predicate Coherent(s: State) {
    && NoDup(Ids(s.evidence))
    && DistinctCauses(s.hypotheses)
    && Grounded(s.hypotheses, Ids(s.evidence))
    && (s.node != AtVerifier ==> Mirrors(s.claims, s.hypotheses, Ids(s.evidence)))
  }

  /** A merchant's score is only ever asked for when the merchant is known. */
  ghost predicate MerchantKnown(s: State) {
    && (forall t :: t in s.pending && NeedsMerchant(t.kind) ==> Truthy(s.merchantId))
    && (forall g :: g in QueuedGaps(s) && NeedsMerchant(g.nextTask) ==> Truthy(s.merchantId))
  }

  /** The verdict is about the evidence at hand. */
  ghost predicate Judged(s: State) {
    s.sufficiency == Some(Judge(s.plan, s.evidence))
  }

  /** Hypotheses and claims are about the evidence at hand. */
  ghost predicate Fresh(lex: Lexicon, s: State) {
    && s.hypotheses == Hypotheses(lex, s.evidence, s.metrics)
    && s.claims == ClaimsFor(lex, s.hypotheses, s.evidence)
  }

  ghost predicate Planned(s: State) {
    && s.plan.Some? && WellFormed(s.plan.value)
    && s.merchantId == s.plan.value.merchantId
  }

  ghost predicate NodeInv(lex: Lexicon, s: State) {
    match s.node
    case AtPlanner =>
      s.iteration == 0 && Live(s) && s.pending == [] && QueuedGaps(s) == []
    case AtInvestigate =>
      Planned(s) && Live(s) && s.iteration < Rounds(s) && s.pending != []
    case AtAggregate =>
      Planned(s) && s.iteration >= 1 && (Live(s) ==> s.pending == [])
    case AtSufficiency =>
      Planned(s) && s.iteration >= 1 && (Live(s) ==> s.pending == [])
    case AtRefine =>
      Planned(s) && Live(s) && 1 <= s.iteration < Rounds(s) && s.pending == [] && QueuedGaps(s) != []
    case AtIncident =>
      Planned(s) && Live(s) && s.iteration >= 1 && s.pending == [] && Judged(s) && s.sufficiency.value.sufficient
    case AtVerifier =>
      Planned(s) && Live(s) && s.iteration >= 1 && s.pending == [] && Judged(s) && s.sufficiency.value.sufficient
      && s.hypotheses == Hypotheses(lex, s.evidence, s.metrics)
    case _ =>
      Planned(s) && s.iteration >= 1 && Judged(s)
      && (Live(s) && s.sufficiency.value.sufficient ==> Fresh(lex, s))
      && (s.node != AtWriter ==> s.report == Some(ReportOf(s)))
      && (s.node == AtEnd ==> s.critique.Some? && s.critique.value.approved)
  }

  ghost predicate Inv(lex: Lexicon, s: State) {
    && s.iteration <= Rounds(s)
    && s.revisions == 0
    && (s.node != AtEnd ==> s.critique == None)
    && (s.node != AtCritic && s.node != AtEnd ==> s.report == None)
    && Clean(s.trace, if s.node == AtCritic || s.node == AtEnd then 1 else 0)
    && Coherent(s)
    && MerchantKnown(s)
    && NodeInv(lex, s)
  }

  /** How many more nodes can run. */
  function Remaining(s: State): int {
    var rounds := Rounds(s) - s.iteration;
    match s.node
    case AtPlanner => 6 * rounds + 2
    case AtInvestigate => 6 * rounds + 1
    case AtAggregate => 6 * rounds + 6
    case AtSufficiency => 6 * rounds + 5
    case AtRefine => 6 * rounds + 2
    case AtIncident => 6 * rounds + 4
    case AtVerifier => 6 * rounds + 3
    case AtWriter => 2
    case AtCritic => 1
    case AtEnd => 0
  }

  // ----- one lemma per node

  lemma {:induction false} PlannedMerchant(lex: Lexicon, s: State)
    requires QueuedGaps(s) == []
    ensures MerchantKnown(PlannerStep(lex, s)) && PlannerStep(lex, s).pending != []
  {
    PlanIsWellFormed(lex, s.question, s.merchantId);
    hide PlanTasks;
  }

  lemma {:induction false} PlannerKeeps(lex: Lexicon, s: State)
    requires Inv(lex, s) && s.node == AtPlanner
    ensures Inv(lex, PlannerStep(lex, s)) && Remaining(PlannerStep(lex, s)) < Remaining(s)
  {
    hide PlanTasks, Clean, Hypotheses, Check, Judge, WellFormed, DistinctCauses, Grounded, Mirrors, ResolveMerchant;
    PlanIsWellFormed(lex, s.question, s.merchantId);
    PlannedMerchant(lex, s);
    CleanOne(s.trace, 0, AcceptQuery);
    CleanOne(s.trace + [AcceptQuery], 0, PlanMade(Kinds(PlanFor(lex, s.question, s.merchantId).tasks)));
  }

  lemma {:induction false} InvestigateKeeps(lex: Lexicon, s: State, env: Env)
    requires Inv(lex, s) && s.node == AtInvestigate
    ensures Inv(lex, InvestigateStep(s, env)) && Remaining(InvestigateStep(s, env)) < Remaining(s)
  {
    hide Hypotheses, Judge, Clean, Check, After, NeedsMerchant, JoinFailures, WellFormed;
    var next := InvestigateStep(s, env);
    if env.expiredOnEntry {
      CleanOne(s.trace, 0, InvestigateTimeout);
    } else {
      var k := Stop(env, 0, |s.pending|);
      var b := After(s, env, k);
      CleanBatch(s, env, k);
      CleanAppend(s.trace, 0, b.trace, 0);
      CleanOne(s.trace + b.trace, 0, InvestigateTimeout);
      EvidenceIdsSurvive(s, env, k);
      EvidenceIdsDistinct(s, env, k);
      assert Mirrors(next.claims, next.hypotheses, Ids(next.evidence));
      assert Grounded(next.hypotheses, Ids(next.evidence));
    }
  }

  lemma {:induction false} EvidenceIdsDistinct(s: State, env: Env, k: nat)
    requires k <= |s.pending| && NoDup(Ids(s.evidence))
    ensures NoDup(Ids(After(s, env, k).evidence))
  {
    hide Merged, RagEvents, FailureText;
    if k > 0 {
      EvidenceIdsDistinct(s, env, k - 1);
      match env.outcome(k - 1)
      case Raised(_) =>
      case Returned(items, _, _) => MergedIds(After(s, env, k - 1).evidence + items);
    }
  }

  lemma {:induction false} AggregateKeeps(lex: Lexicon, s: State)
    requires Inv(lex, s) && s.node == AtAggregate
    ensures Inv(lex, AggregateStep(s)) && Remaining(AggregateStep(s)) < Remaining(s)
  {
    hide Hypotheses, Judge, Clean, Check;
    CleanOne(s.trace, 0, Merge(|s.evidence|));
  }

  lemma {:induction false} SufficiencyMerchantKnown(lex: Lexicon, s: State)
    requires Inv(lex, s) && s.node == AtSufficiency
    ensures MerchantKnown(SufficiencyStep(s))
  {
    var missing := MissingGaps(s.plan.value.tasks, s.evidence);
    var next := SufficiencyStep(s);
    assert next.sufficiency.value.missing == missing;
    GapsAreTheMissingCategories(s.plan.value.tasks, s.evidence);
    hide Hypotheses, Clean, Check, Judge, Coherent, NeedsMerchant;
    forall g | g in missing && NeedsMerchant(g.nextTask) ensures Truthy(s.merchantId) {
      var t :| t in s.plan.value.tasks && g == EvidenceGap(t.kind, t.query);
    }
  }

  lemma {:induction false} SufficiencyKeeps(lex: Lexicon, s: State)
    requires Inv(lex, s) && s.node == AtSufficiency
    ensures Inv(lex, SufficiencyStep(s)) && Remaining(SufficiencyStep(s)) < Remaining(s)
  {
    hide Hypotheses, Clean, Check, Judge, MerchantKnown, WellFormed;
    CleanOne(s.trace, 0, Evaluate(Judge(s.plan, s.evidence).sufficient));
    SufficientIffAllPresent(s.plan, s.evidence);
    SufficiencyMerchantKnown(lex, s);
  }

  lemma {:induction false} RefineKeeps(lex: Lexicon, s: State)
    requires Inv(lex, s) && s.node == AtRefine
    ensures Inv(lex, RefineStep(s)) && Remaining(RefineStep(s)) < Remaining(s)
  {
    hide Hypotheses, Judge, Clean, Check, NeedsMerchant;
    var gaps := QueuedGaps(s);
    CleanOne(s.trace, 0, QueueGaps(|gaps|));
    var tasks := TasksFromGaps(gaps);
    forall t | t in tasks && NeedsMerchant(t.kind) ensures Truthy(s.merchantId) {
      var i :| 0 <= i < |tasks| && tasks[i] == t;
      assert gaps[i] in gaps;
    }
  }

  lemma {:induction false} IncidentCoherent(lex: Lexicon, s: State)
    requires Inv(lex, s) && s.node == AtIncident
    ensures Coherent(IncidentStep(lex, s))
  {
    hide Hypotheses, Judge, Clean, Check, MerchantKnown;
    HypothesesAreGrounded(lex, s.evidence, s.metrics);
  }

  lemma {:induction false} IncidentKeeps(lex: Lexicon, s: State)
    requires Inv(lex, s) && s.node == AtIncident
    ensures Inv(lex, IncidentStep(lex, s)) && Remaining(IncidentStep(lex, s)) < Remaining(s)
  {
    hide Hypotheses, Judge, Clean, Check, Coherent;
    CleanOne(s.trace, 0, Propose);
    IncidentCoherent(lex, s);
  }

  lemma {:induction false} VerifierCoherent(lex: Lexicon, s: State)
    requires Inv(lex, s) && s.node == AtVerifier
    ensures Coherent(VerifierStep(lex, s)) && MerchantKnown(VerifierStep(lex, s))
  {
    hide Hypotheses, Judge, Clean, Check;
    var result := VerifyAll(lex, s.hypotheses, s.evidence);
    ClaimsMirrorHypotheses(lex, s.hypotheses, s.evidence);
    VerifierGapsNeedNoMerchant(lex, result.claims);
  }

  lemma {:induction false} VerifierKeeps(lex: Lexicon, s: State)
    requires Inv(lex, s) && s.node == AtVerifier
    ensures Inv(lex, VerifierStep(lex, s)) && Remaining(VerifierStep(lex, s)) < Remaining(s)
  {
    hide Hypotheses, Check, Judge, Clean, NeedsMerchant, GapsFor, OverallStatus;
    var result := VerifyAll(lex, s.hypotheses, s.evidence);
    CleanOne(s.trace, 0, Verify(result.status));
    VerifierCoherent(lex, s);
  }

  lemma {:induction false} VerifierGapsNeedNoMerchant(lex: Lexicon, claims: seq<Claim>)
    ensures forall g :: g in GapsFor(lex, claims) ==> !NeedsMerchant(g.nextTask)
  {
    if claims != [] {
      VerifierGapsNeedNoMerchant(lex, claims[1..]);
    }
  }

  lemma {:induction false} WriterKeeps(lex: Lexicon, s: State)
    requires Inv(lex, s) && s.node == AtWriter
    ensures Inv(lex, WriterStep(s)) && Remaining(WriterStep(s)) < Remaining(s)
  {
    hide Hypotheses, Judge, Clean, Check, WriteReport;
    var event := Write(ReportOf(s).evidenceSufficient);
    assert Writes([event]) == 1;
    CleanOne(s.trace, 0, event);
  }

  lemma {:induction false} CriticApproves(lex: Lexicon, s: State)
    requires Inv(lex, s) && s.node == AtCritic
    ensures ReviewReport(lex, s.question, s.plan, s.sufficiency, s.claims, s.report).approved
  {
    hide Hypotheses, Judge, Clean, Check, MerchantKnown, ReviewReport, WriteReport;
    DraftIsApproved(lex, s.question, s.plan, s.sufficiency, s.evidence, s.metrics, s.hypotheses, s.claims,
                    s.error, s.timedOut, s.language);
  }

  lemma {:induction false} CriticKeeps(lex: Lexicon, s: State)
    requires Inv(lex, s) && s.node == AtCritic
    ensures Inv(lex, CriticStep(lex, s)) && Remaining(CriticStep(lex, s)) < Remaining(s)
  {
    hide Hypotheses, Judge, Clean, Check, ReviewReport, WriteReport;
    CriticApproves(lex, s);
    CleanOne(s.trace, 1, Review(true));
  }

  lemma {:induction false} SomethingRemains(lex: Lexicon, s: State)
    requires Inv(lex, s)
    ensures if s.node == AtEnd then Remaining(s) == 0 else Remaining(s) >= 1
  {
    hide Hypotheses, Judge, Clean, Check, Coherent, MerchantKnown, Fresh;
  }

  lemma {:induction false} StepKeeps(lex: Lexicon, s: State, env: Env)
    requires Inv(lex, s)
    ensures Inv(lex, Step(lex, s, env))
    ensures if s.node == AtEnd then Step(lex, s, env) == s else 0 <= Remaining(Step(lex, s, env)) < Remaining(s)
  {
    hide Inv, PlannerStep, InvestigateStep, AggregateStep, SufficiencyStep, RefineStep, IncidentStep, VerifierStep,
      WriterStep, CriticStep;
    match s.node {
      case AtPlanner => PlannerKeeps(lex, s);
      case AtInvestigate => InvestigateKeeps(lex, s, env);
      case AtAggregate => AggregateKeeps(lex, s);
      case AtSufficiency => SufficiencyKeeps(lex, s);
      case AtRefine => RefineKeeps(lex, s);
      case AtIncident => IncidentKeeps(lex, s);
      case AtVerifier => VerifierKeeps(lex, s);
      case AtWriter => WriterKeeps(lex, s);
      case AtCritic => CriticKeeps(lex, s);
      case AtEnd =>
    }
    SomethingRemains(lex, Step(lex, s, env));
  }

  lemma {:induction false} InitialInv(lex: Lexicon, question: string, merchantId: Option<string>, language: Language,
                                      maxIterations: int)
    ensures Inv(lex, Initial(question, merchantId, language, maxIterations))
    ensures Remaining(Initial(question, merchantId, language, maxIterations))
         == 6 * (if maxIterations < 1 then 1 else maxIterations) + 2
  {
    assert Ids([]) == [];
  }
}
