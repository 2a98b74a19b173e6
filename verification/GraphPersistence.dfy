/** When a run stops and when it goes on: it gives up only for want of rounds, and asks for more only for want of
    evidence. */
module GraphPersistence {
  import opened Wrappers
  import opened Schemas
  import opened InvestigationState
  import opened Investigate
  import opened InvestigationGraph
  import opened GraphInvariant
  import opened GraphRuns
  import opened PlannerAgent
  import opened SufficiencyAgent
  import opened IncidentRiskAgent
  import opened VerifierAgent
  import opened WriterAgent
  import opened CriticAgent
  import AgentFacts

  /** The evidence at hand covers the plan, and no critical claim about it is unsupported. */
  ghost predicate Enough(lex: Lexicon, s: State) {
    && Judge(s.plan, s.evidence).sufficient
    && !AnyCriticalUnsupported(ClaimsFor(lex, Hypotheses(lex, s.evidence, s.metrics), s.evidence))
  }

  ghost predicate Persistent(lex: Lexicon, s: State) {
    && (s.node in {AtWriter, AtCritic, AtEnd} && Live(s) && s.iteration < Rounds(s) ==> Enough(lex, s))
    && (s.node == AtRefine ==> !Enough(lex, s) && Judged(s))
  }

  lemma {:induction false} SufficiencyPersists(lex: Lexicon, s: State)
    requires Inv(lex, s) && s.node == AtSufficiency
    ensures Persistent(lex, SufficiencyStep(s))
  {
    hide Judge, Clean, Coherent, MerchantKnown, Hypotheses, Check;
  }

  lemma {:induction false} VerifierPersists(lex: Lexicon, s: State)
    requires Inv(lex, s) && s.node == AtVerifier
    ensures Persistent(lex, VerifierStep(lex, s))
  {
    hide Judge, Clean, Coherent, MerchantKnown, Hypotheses, Check, GapsFor, OverallStatus;
    var claims := ClaimsFor(lex, s.hypotheses, s.evidence);
    OnlyTheFirstIsCritical(lex, s.hypotheses, s.evidence);
    GapsOnlyForTheLeadingClaim(lex, claims);
  }

  lemma {:induction false} OnlyTheFirstIsCritical(lex: Lexicon, hypotheses: seq<Hypothesis>,
                                                  evidence: seq<EvidenceItem>)
    ensures forall i :: 0 < i < |hypotheses| ==> !ClaimsFor(lex, hypotheses, evidence)[i].critical
  {
    hide Known, JoinedTexts, Joined, Contradicted;
  }

  lemma {:induction false} OthersPersist(lex: Lexicon, s: State, env: Env)
    requires Persistent(lex, s) && s.node != AtSufficiency && s.node != AtVerifier
    ensures Persistent(lex, Step(lex, s, env))
  {
    hide Judge, Hypotheses, Check, After, WriteReport, ReviewReport, PlanFor;
  }

  lemma {:induction false} RunPersists(lex: Lexicon, r: Request, envs: seq<Env>)
    ensures Persistent(lex, Run(lex, Begin(r), envs))
  {
    hide Persistent, Step, Inv;
    if envs == [] {
      assert Persistent(lex, Begin(r)) by {
        StartPersists(lex, r);
      }
    } else {
      var before, env := Run(lex, Begin(r), envs[..|envs| - 1]), envs[|envs| - 1];
      RunPersists(lex, r, envs[..|envs| - 1]);
      RunKeeps(lex, r, envs[..|envs| - 1]);
      StepPersists(lex, before, env);
    }
  }

  lemma {:induction false} StartPersists(lex: Lexicon, r: Request)
    ensures Persistent(lex, Begin(r))
  {
  }

  lemma {:induction false} StepPersists(lex: Lexicon, s: State, env: Env)
    requires Inv(lex, s) && Persistent(lex, s)
    ensures Persistent(lex, Step(lex, s, env))
  {
    hide Persistent, Inv;
    if s.node == AtSufficiency {
      SufficiencyPersists(lex, s);
    } else if s.node == AtVerifier {
      VerifierPersists(lex, s);
    } else {
      OthersPersist(lex, s, env);
    }
    hide SufficiencyStep, VerifierStep, PlannerStep, InvestigateStep, AggregateStep, RefineStep, IncidentStep,
      WriterStep, CriticStep;
  }

  /** A finished run that neither timed out nor failed and still says its evidence is insufficient has used every round
      it was allowed. */
  lemma {:induction false} GivesUpOnlyWhenOutOfRounds(lex: Lexicon, r: Request, envs: seq<Env>)
    requires Run(lex, Begin(r), envs).node == AtEnd
    ensures var s := Run(lex, Begin(r), envs);
            && s.report.Some?
            && (!s.report.value.evidenceSufficient && !s.timedOut && !Truthy(s.error) ==> s.iteration == MaxRounds(r))
  {
    RunPersists(lex, r, envs);
    RunKeeps(lex, r, envs);
    SufficientMeansSufficient(lex, r, envs);
    var s := Run(lex, Begin(r), envs);
    hide Hypotheses, Judge, Check, Coherent, MerchantKnown, Clean, Fresh;
    SufficientIffAllPresent(s.plan, s.evidence);
  }

  /** A run refines only while a planned category is absent from its evidence, or a critical claim about that evidence
      is unsupported; it never spends a round on a question it could already answer. */
  lemma {:induction false} RefinesOnlyWhenNeeded(lex: Lexicon, r: Request, envs: seq<Env>)
    requires Run(lex, Begin(r), envs).node == AtRefine
    ensures var s := Run(lex, Begin(r), envs);
            && s.plan.Some?
            && ((exists t :: t in s.plan.value.tasks && !Present(s.evidence, SourceFor(t.kind)))
                || AnyCriticalUnsupported(ClaimsFor(lex, Hypotheses(lex, s.evidence, s.metrics), s.evidence)))
  {
    RunPersists(lex, r, envs);
    RunKeeps(lex, r, envs);
    var s := Run(lex, Begin(r), envs);
    hide Hypotheses, Judge, Check, Coherent, MerchantKnown, Clean, Fresh;
    SufficientIffAllPresent(s.plan, s.evidence);
  }

  /** A task asks again for a planned category that is absent, in the words of the plan, or for what the verifier
      asked. */
  ghost predicate AsksAgain(s: State, t: Task) {
    || (s.plan.Some?
        && exists p :: p in s.plan.value.tasks && !Present(s.evidence, SourceFor(p.kind))
                       && t.kind == p.kind && t.query == p.query)
    || (s.verification.Some? && EvidenceGap(t.kind, t.query) in s.verification.value.gaps)
  }

  /** Refining queues a task for every planned category that is absent and everything the verifier asked for, and no
      other. */
  lemma {:induction false} RefineRetriesWhatIsMissing(lex: Lexicon, r: Request, envs: seq<Env>, env: Env)
    requires Run(lex, Begin(r), envs).node == AtRefine
    ensures var s := Run(lex, Begin(r), envs);
            var next := Step(lex, s, env);
            && s.plan.Some?
            && next.node == AtInvestigate
            && (forall t :: t in next.pending ==> AsksAgain(s, t))
            && (forall p :: p in s.plan.value.tasks && !Present(s.evidence, SourceFor(p.kind)) ==>
                  exists t :: t in next.pending && t.kind == p.kind && t.query == p.query)
            && (s.verification.Some? ==> forall g :: g in s.verification.value.gaps ==>
                  exists t :: t in next.pending && t.kind == g.nextTask && t.query == g.query)
  {
    RunPersists(lex, r, envs);
    RunKeeps(lex, r, envs);
    var s := Run(lex, Begin(r), envs);
    hide Hypotheses, Check, Coherent, MerchantKnown, Clean, Enough, Run;
    assert s.plan.Some? && s.plan.value.tasks != [] && s.pending == [];
    GapsAreTheMissingCategories(s.plan.value.tasks, s.evidence);
    RefineQueuesTheGaps(s);
  }

  lemma {:induction false} RefineQueuesTheGaps(s: State)
    requires s.plan.Some? && s.plan.value.tasks != [] && s.pending == [] && Judged(s)
    requires forall g :: g in MissingGaps(s.plan.value.tasks, s.evidence) <==>
               exists t :: t in s.plan.value.tasks && !Present(s.evidence, SourceFor(t.kind))
                           && g == EvidenceGap(t.kind, t.query)
    ensures var next := RefineStep(s).pending;
            && (forall t :: t in next ==> AsksAgain(s, t))
            && (forall p :: p in s.plan.value.tasks && !Present(s.evidence, SourceFor(p.kind)) ==>
                  exists t :: t in next && t.kind == p.kind && t.query == p.query)
            && (s.verification.Some? ==> forall g :: g in s.verification.value.gaps ==>
                  exists t :: t in next && t.kind == g.nextTask && t.query == g.query)
  {
    var gaps, next := QueuedGaps(s), RefineStep(s).pending;
    hide MissingGaps, Present;
    forall t | t in next ensures EvidenceGap(t.kind, t.query) in gaps {
      var i :| 0 <= i < |next| && next[i] == t;
      assert gaps[i] == EvidenceGap(t.kind, t.query);
    }
    forall g | g in gaps ensures exists t :: t in next && t.kind == g.nextTask && t.query == g.query {
      var i :| 0 <= i < |gaps| && gaps[i] == g;
      assert next[i] in next;
    }
    var missing := MissingGaps(s.plan.value.tasks, s.evidence);
    assert forall g :: g in gaps <==>
             g in missing || (s.verification.Some? && g in s.verification.value.gaps);
    hide QueuedGaps, RefineStep;
    forall t | t in next ensures AsksAgain(s, t) {
      assert EvidenceGap(t.kind, t.query) in gaps;
    }
    forall p | p in s.plan.value.tasks && !Present(s.evidence, SourceFor(p.kind))
      ensures exists t :: t in next && t.kind == p.kind && t.query == p.query
    {
      assert EvidenceGap(p.kind, p.query) in missing;
    }
  }

  /** The report of every finished run names the first claim that was supported and shows no more confidence than it
      may, and no less. */
  lemma {:induction false} ReportsTheFirstSupported(lex: Lexicon, r: Request, envs: seq<Env>)
    requires Run(lex, Begin(r), envs).node == AtEnd
    ensures var s := Run(lex, Begin(r), envs);
            && s.report.Some?
            && AgentFacts.CauseIs(s.hypotheses, s.claims, s.report.value.likelyCause)
            && AgentFacts.ShowsFairly(s.evidence, s.metrics, s.hypotheses, s.claims, s.report.value)
  {
    RunKeeps(lex, r, envs);
    var s := Run(lex, Begin(r), envs);
    hide Hypotheses, Check, Judge, Clean, MerchantKnown, Fresh, Run, LikelyCause, Summary, SeverityOf;
    hide AgentFacts.CauseIs, AgentFacts.ShowsFairly;
    assert s.report == Some(ReportOf(s));
    assert s.report.value.likelyCause
        == LikelyCause(s.hypotheses, s.claims, Ids(s.evidence), s.report.value.evidenceSufficient);
    AgentFacts.CauseIsTheFirstSupported(s.hypotheses, s.claims, Ids(s.evidence), s.report.value.evidenceSufficient);
    AgentFacts.ReportShowsFairly(s.question, s.evidence, s.metrics, s.hypotheses, s.sufficiency, s.claims, s.error,
                                 s.timedOut, s.language);
  }
}
