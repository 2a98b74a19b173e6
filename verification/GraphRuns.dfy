/** Whole runs of the investigation graph: every question, lexicon and deadline, and every outcome of every task. */
module GraphRuns {
  import opened Wrappers
  import opened Dicts
  import opened Schemas
  import opened InvestigationState
  import opened InvestigationGraph
  import opened GraphInvariant
  import opened Investigate
  import opened PlannerAgent
  import opened SufficiencyAgent
  import opened IncidentRiskAgent
  import opened VerifierAgent
  import opened WriterAgent
  import opened CriticAgent

  /** How a run is started. */
  datatype Request = Request(question: string, merchantId: Option<string>, language: Language, maxIterations: int)

  function Begin(r: Request): State {
    Initial(r.question, r.merchantId, r.language, r.maxIterations)
  }

  function MaxRounds(r: Request): nat {
    if r.maxIterations < 1 then 1 else r.maxIterations
  }

  lemma {:induction false} RunKeeps(lex: Lexicon, r: Request, envs: seq<Env>)
    ensures Inv(lex, Run(lex, Begin(r), envs))
    ensures Run(lex, Begin(r), envs).maxIterations == r.maxIterations
    ensures Remaining(Run(lex, Begin(r), envs)) <= 6 * MaxRounds(r) + 2 - |envs|
         || Run(lex, Begin(r), envs).node == AtEnd
  {
    hide Inv, Step, Remaining;
    if envs == [] {
      InitialInv(lex, r.question, r.merchantId, r.language, r.maxIterations);
    } else {
      RunKeeps(lex, r, envs[..|envs| - 1]);
      StepKeeps(lex, Run(lex, Begin(r), envs[..|envs| - 1]), envs[|envs| - 1]);
      MaximumIsKept(lex, Run(lex, Begin(r), envs[..|envs| - 1]), envs[|envs| - 1]);
    }
  }

  lemma {:induction false} MaximumIsKept(lex: Lexicon, s: State, env: Env)
    ensures Step(lex, s, env).maxIterations == s.maxIterations
  {
    hide PlanFor, Judge, VerifyAll, Hypotheses, ReviewReport, WriteReport, After;
  }

  /** Every run ends, within six nodes a round and two more, with a report and at most `MaxRounds` investigations. */
  lemma {:induction false} EveryRunEnds(lex: Lexicon, r: Request, envs: seq<Env>)
    requires |envs| >= 6 * MaxRounds(r) + 2
    ensures Run(lex, Begin(r), envs).node == AtEnd
    ensures Run(lex, Begin(r), envs).report.Some?
    ensures 1 <= Run(lex, Begin(r), envs).iteration <= MaxRounds(r)
  {
    hide Step, Hypotheses, Judge, Clean, Check, Coherent, MerchantKnown, Fresh;
    RunKeeps(lex, r, envs);
    SomethingRemains(lex, Run(lex, Begin(r), envs));
  }

  /** The critic approves the first draft of every run: the writer writes once, the revision edge is never taken, and
      no run ever skips an investigation or keeps leftover tasks when refining. */
  lemma {:induction false} CriticApprovesTheFirstDraft(lex: Lexicon, r: Request, envs: seq<Env>)
    ensures var s := Run(lex, Begin(r), envs);
            && Writes(s.trace) <= 1
            && s.revisions == 0
            && Review(false) !in s.trace && KeepPending !in s.trace && InvestigateSkip !in s.trace
            && (s.critique.Some? ==> s.critique.value.approved)
            && (s.node == AtEnd ==> Writes(s.trace) == 1 && s.critique.Some?)
  {
    hide Hypotheses, Judge, Check, Coherent, MerchantKnown, Fresh, Step;
    RunKeeps(lex, r, envs);
    var s := Run(lex, Begin(r), envs);
    assert Forbidden(Review(false)) && Forbidden(KeepPending) && Forbidden(InvestigateSkip);
  }

  /** Investigation always starts with work to do; refinement starts with none and always finds some; and a task that
      needs a merchant is never queued for a run that knows none. */
  lemma {:induction false} TasksAreThereWhenNeeded(lex: Lexicon, r: Request, envs: seq<Env>, env: Env)
    ensures var s := Run(lex, Begin(r), envs);
            && (s.node == AtInvestigate ==> s.pending != [])
            && (s.node == AtRefine ==> s.pending == [] && Step(lex, s, env).pending != [])
            && (forall t :: t in s.pending && NeedsMerchant(t.kind) ==> Truthy(t.merchantId) || Truthy(s.merchantId))
  {
    hide Hypotheses, Judge, Clean, Check, Coherent, Fresh;
    RunKeeps(lex, r, envs);
    StepKeeps(lex, Run(lex, Begin(r), envs), env);
  }

  /** The final verdict is exact. A report says its evidence is sufficient if and only if the run neither timed out nor
      failed, every planned category is present among the evidence it lists, and no critical claim about that very
      evidence went unsupported. */
  lemma {:induction false} SufficientMeansSufficient(lex: Lexicon, r: Request, envs: seq<Env>)
    requires Run(lex, Begin(r), envs).node == AtEnd
    ensures var s := Run(lex, Begin(r), envs);
            && s.report.Some? && s.plan.Some?
            && s.report.value.evidence == Refs(s.evidence)
            && (s.report.value.evidenceSufficient <==>
                  && !s.timedOut && !Truthy(s.error)
                  && (forall t :: t in s.plan.value.tasks ==> Present(s.evidence, SourceFor(t.kind)))
                  && !AnyCriticalUnsupported(ClaimsFor(lex, Hypotheses(lex, s.evidence, s.metrics), s.evidence)))
            && (s.report.value.evidenceSufficient ==>
                  s.claims == ClaimsFor(lex, Hypotheses(lex, s.evidence, s.metrics), s.evidence))
  {
    hide Hypotheses, Check, Judge, Clean, MerchantKnown, Coherent, Step, Fresh;
    RunKeeps(lex, r, envs);
    var s := Run(lex, Begin(r), envs);
    SufficientIffAllPresent(s.plan, s.evidence);
    FreshMeansVerified(lex, s);
  }

  lemma {:induction false} FreshMeansVerified(lex: Lexicon, s: State)
    requires Inv(lex, s) && s.node == AtEnd
    ensures s.report.value.evidenceSufficient <==>
              && Live(s) && s.sufficiency.value.sufficient
              && !AnyCriticalUnsupported(ClaimsFor(lex, Hypotheses(lex, s.evidence, s.metrics), s.evidence))
    ensures s.report.value.evidenceSufficient ==>
              s.claims == ClaimsFor(lex, Hypotheses(lex, s.evidence, s.metrics), s.evidence)
  {
    hide Hypotheses, Check, Judge, Clean, MerchantKnown;
    assert s.report.value == ReportOf(s);
    assert ReportOf(s).evidenceSufficient == Sufficient(s.sufficiency, s.claims, s.timedOut, s.error);
    assert forall c :: c in s.claims && Contradictory in c.issues ==> !c.supported;
    assert AnyCriticalContradictory(s.claims) ==> AnyCriticalUnsupported(s.claims);
  }

  ghost predicate Listed(report: Report, id: string) {
    exists ref :: ref in report.evidence && ref.id == id
  }

  /** Every id a report cites, for its likely cause or for an alternative, is in the report's own evidence list; each
      evidence id is listed once; and a report without sufficient evidence never claims more than 0.3 confidence. */
  lemma {:induction false} CitationsResolve(lex: Lexicon, r: Request, envs: seq<Env>)
    requires Run(lex, Begin(r), envs).node == AtEnd
    ensures var s := Run(lex, Begin(r), envs);
            && s.report.Some?
            && (forall id :: id in s.report.value.likelyCause.supportingIds ==> Listed(s.report.value, id))
            && (forall h, id :: h in s.report.value.alternatives && id in h.supportingIds ==>
                  Listed(s.report.value, id))
            && (forall i, j :: 0 <= i < j < |s.report.value.evidence| ==>
                  s.report.value.evidence[i].id != s.report.value.evidence[j].id)
            && (!s.report.value.evidenceSufficient ==> s.report.value.confidence <= 0.3)
  {
    hide Hypotheses, Check, Judge, Clean, MerchantKnown, Fresh, Step, LikelyCause;
    RunKeeps(lex, r, envs);
    var s := Run(lex, Begin(r), envs);
    var report := ReportOf(s);
    CauseIsGrounded(s.hypotheses, s.claims, s.evidence, report.evidenceSufficient);
    EverythingIsListed(s);
    forall h, id | h in report.alternatives && id in h.supportingIds ensures Listed(report, id) {
      assert h in s.hypotheses;
    }
    assert NoDup(Ids(s.evidence));
    forall i, j | 0 <= i < j < |report.evidence| ensures report.evidence[i].id != report.evidence[j].id {
      assert Ids(s.evidence)[i] != Ids(s.evidence)[j];
    }
  }

  lemma {:induction false} EverythingIsListed(s: State)
    ensures forall id :: id in Ids(s.evidence) ==> Listed(ReportOf(s), id)
  {
    forall id | id in Ids(s.evidence) ensures Listed(ReportOf(s), id) {
      var i :| 0 <= i < |s.evidence| && Ids(s.evidence)[i] == id;
      assert ReportOf(s).evidence[i] in ReportOf(s).evidence;
    }
  }

  /** When the evidence is sufficient, the cause named is a hypothesis the verifier supported from that evidence, or
      no hypothesis was supported at all and the report says so. */
  lemma {:induction false} SufficientCauseIsSupported(lex: Lexicon, r: Request, envs: seq<Env>)
    requires Run(lex, Begin(r), envs).node == AtEnd
    requires Run(lex, Begin(r), envs).report.Some? && Run(lex, Begin(r), envs).report.value.evidenceSufficient
    ensures var s := Run(lex, Begin(r), envs);
            var cause := s.report.value.likelyCause.cause;
            || (exists c :: c in s.claims && c.supported && c.claim == cause)
            || (cause == FALLBACK_CAUSE && forall c :: c in s.claims ==> !c.supported)
  {
    hide Hypotheses, Check, Judge, Clean, MerchantKnown, Step, LikelyCause;
    RunKeeps(lex, r, envs);
    var s := Run(lex, Begin(r), envs);
    CauseIsSupported(s.hypotheses, s.claims, Ids(s.evidence), true);
  }

  lemma {:induction false} CauseIsSupported(hypotheses: seq<Hypothesis>, claims: seq<Claim>, known: seq<string>,
                                            sufficient: bool)
    requires |claims| == |hypotheses|
    ensures var cause := LikelyCause(hypotheses, claims, known, sufficient).cause;
            || (exists c :: c in claims && c.supported && c.claim == cause)
            || (cause == FALLBACK_CAUSE && forall c :: c in claims ==> !c.supported)
  {
    match FirstSupported(claims)
    case None =>
    case Some(c) => assert c.claim == LikelyCause(hypotheses, claims, known, sufficient).cause;
  }

  /** Evidence only accumulates: an id collected before some step of a run is there ever after. */
  lemma {:induction false} EvidenceAccumulates(lex: Lexicon, s: State, envs: seq<Env>)
    ensures forall id :: id in Ids(s.evidence) ==> id in Ids(Run(lex, s, envs).evidence)
  {
    hide After, PlanFor, Judge, VerifyAll, Hypotheses, ReviewReport, WriteReport;
    if envs != [] {
      var before := Run(lex, s, envs[..|envs| - 1]);
      EvidenceAccumulates(lex, s, envs[..|envs| - 1]);
      if before.node == AtInvestigate && !envs[|envs| - 1].expiredOnEntry {
        EvidenceIdsSurvive(before, envs[|envs| - 1], Stop(envs[|envs| - 1], 0, |before.pending|));
      }
    }
  }
}
