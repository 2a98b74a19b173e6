/** The critic reviews a draft; it neither retrieves evidence nor overrides the verifier. */
module CriticAgent {
  import opened Wrappers
  import opened Schemas
  import opened IncidentRiskAgent
  import opened VerifierAgent
  import opened WriterAgent

  function CoverageIssues(report: Report): seq<CriticIssue> {
    if exists id :: id in report.likelyCause.supportingIds && !(exists r :: r in report.evidence && r.id == id)
    then [EvidenceCoverage] else []
  }

  function UnsupportedIssues(claims: seq<Claim>, report: Report): seq<CriticIssue> {
    if (exists c :: c in claims && !c.supported && c.claim == report.likelyCause.cause)
       && report.evidenceSufficient && report.likelyCause.cause != FALLBACK_CAUSE
    then [UnsupportedClaims]
    else if AnyCriticalUnsupported(claims) && report.evidenceSufficient then [UnsupportedClaims]
    else []
  }

  function ConsistencyIssues(claims: seq<Claim>, report: Report): seq<CriticIssue> {
    if AnyCriticalContradictory(claims) && report.confidence > 0.4 then [FactualConsistency] else []
  }

  function Remarks(remarks: seq<WordingIssue>): (issues: seq<CriticIssue>)
    ensures |issues| == |remarks| && forall i :: 0 <= i < |issues| ==> issues[i] == Wording(remarks[i])
  {
    seq(|remarks|, i requires 0 <= i < |remarks| => Wording(remarks[i]))
  }

  /** Only the three factual kinds of issue block a report. */
  predicate OnlyWording(issues: seq<CriticIssue>) {
    forall issue :: issue in issues ==> issue.Wording?
  }

  function Issues(lex: Lexicon, question: string, plan: Option<Plan>, verdict: Option<Verdict>,
                  claims: seq<Claim>, draft: Report): seq<CriticIssue>
  {
    (if plan.None? then [Wording(Completeness)] else [])
    + Remarks(lex.wording(question, draft.summary))
    + CoverageIssues(draft)
    + UnsupportedIssues(claims, draft)
    + ConsistencyIssues(claims, draft)
    + (if verdict.Some? && !verdict.value.sufficient then [Wording(Completeness)] else [])
  }

  function ReviewReport(lex: Lexicon, question: string, plan: Option<Plan>, verdict: Option<Verdict>,
                        claims: seq<Claim>, report: Option<Report>): Critique
  {
    if report.None? then
      Critique(false, (if plan.None? then [Wording(Completeness)] else []) + [Wording(Completeness)])
    else
      var issues := Issues(lex, question, plan, verdict, claims, report.value);
      Critique(OnlyWording(issues) && report.value.summary != "", issues)
  }

  /** The critic, extending its list of issues as it goes. */
  method Review(lex: Lexicon, question: string, plan: Option<Plan>, verdict: Option<Verdict>, claims: seq<Claim>,
                report: Option<Report>)
    returns (critique: Critique)
    ensures critique == ReviewReport(lex, question, plan, verdict, claims, report)
  {
    hide CoverageIssues, UnsupportedIssues, ConsistencyIssues, OnlyWording;
    var issues: seq<CriticIssue> := [];
    if plan.None? {
      issues := issues + [Wording(Completeness)];
    }
    if report.None? {
      return Critique(false, issues + [Wording(Completeness)]);
    }
    issues := issues + Remarks(lex.wording(question, report.value.summary));
    issues := issues + CoverageIssues(report.value);
    issues := issues + UnsupportedIssues(claims, report.value);
    issues := issues + ConsistencyIssues(claims, report.value);
    if verdict.Some? && !verdict.value.sufficient {
      issues := issues + [Wording(Completeness)];
    }
    assert issues == Issues(lex, question, plan, verdict, claims, report.value);
    critique := Critique(OnlyWording(issues) && report.value.summary != "", issues);
  }

  /** What a draft needs for the critic to find nothing that blocks it. */
  lemma {:induction false} ApprovedIff(lex: Lexicon, question: string, plan: Option<Plan>, verdict: Option<Verdict>,
                                       claims: seq<Claim>, report: Option<Report>)
    ensures ReviewReport(lex, question, plan, verdict, claims, report).approved <==>
              && report.Some?
              && report.value.summary != ""
              && CoverageIssues(report.value) == []
              && UnsupportedIssues(claims, report.value) == []
              && ConsistencyIssues(claims, report.value) == []
  {
    if report.Some? {
      var draft := report.value;
      var issues := Issues(lex, question, plan, verdict, claims, draft);
      var coverage, unsupported, consistency :=
        CoverageIssues(draft), UnsupportedIssues(claims, draft), ConsistencyIssues(claims, draft);
      assert forall issue :: issue in issues && !issue.Wording? ==>
               issue in coverage || issue in unsupported || issue in consistency;
      assert forall issue :: issue in coverage + unsupported + consistency ==> issue in issues;
      assert OnlyWording(issues) ==> coverage == [] && unsupported == [] && consistency == [] by {
        if coverage != [] {
          assert coverage[0] in issues;
        }
        if unsupported != [] {
          assert unsupported[0] in issues;
        }
        if consistency != [] {
          assert consistency[0] in issues;
        }
      }
    }
  }

  /** The writer and the critic fit together: whenever the claims mirror distinct hypotheses and cite collected
      evidence, the draft written from them is approved, be the evidence sufficient or not. */
  lemma {:induction false} DraftIsApproved(lex: Lexicon, question: string, plan: Option<Plan>,
                                           verdict: Option<Verdict>, evidence: seq<EvidenceItem>,
                                           metrics: seq<MetricResult>, hypotheses: seq<Hypothesis>, claims: seq<Claim>,
                                           error: Option<string>, timedOut: bool, language: Language)
    requires Mirrors(claims, hypotheses, Ids(evidence)) && DistinctCauses(hypotheses)
    ensures var report :=
              WriteReport(question, evidence, metrics, hypotheses, verdict, claims, error, timedOut, language);
            ReviewReport(lex, question, plan, verdict, claims, Some(report)).approved
  {
    var report := WriteReport(question, evidence, metrics, hypotheses, verdict, claims, error, timedOut, language);
    var sufficient := Sufficient(verdict, claims, timedOut, error);
    CauseIsGrounded(hypotheses, claims, evidence, sufficient);
    ChosenIsNotRejected(hypotheses, claims, Ids(evidence), sufficient);
    assert report.likelyCause == LikelyCause(hypotheses, claims, Ids(evidence), sufficient);
    assert CoverageIssues(report) == [];
    assert UnsupportedIssues(claims, report) == [];
    assert ConsistencyIssues(claims, report) == [];
    ApprovedIff(lex, question, plan, verdict, claims, Some(report));
  }

  /** The likely cause cites only ids the report lists. */
  lemma {:induction false} CauseIsGrounded(hypotheses: seq<Hypothesis>, claims: seq<Claim>,
                                           evidence: seq<EvidenceItem>, sufficient: bool)
    requires Mirrors(claims, hypotheses, Ids(evidence))
    ensures forall id :: id in LikelyCause(hypotheses, claims, Ids(evidence), sufficient).supportingIds ==>
              id in Ids(evidence) && exists r :: r in Refs(evidence) && r.id == id
  {
    var cause := LikelyCause(hypotheses, claims, Ids(evidence), sufficient);
    forall id | id in cause.supportingIds
      ensures id in Ids(evidence) && exists r :: r in Refs(evidence) && r.id == id
    {
      assert id in Ids(evidence);
      var i :| 0 <= i < |evidence| && Ids(evidence)[i] == id;
      assert Refs(evidence)[i] in Refs(evidence);
    }
  }

  /** With distinct causes, the cause of a supported claim is not also the cause of a rejected one. */
  lemma {:induction false} ChosenIsNotRejected(hypotheses: seq<Hypothesis>, claims: seq<Claim>, known: seq<string>,
                                               sufficient: bool)
    requires |claims| == |hypotheses| && DistinctCauses(hypotheses)
    requires forall i :: 0 <= i < |claims| ==> claims[i].claim == hypotheses[i].cause
    ensures var cause := LikelyCause(hypotheses, claims, known, sufficient).cause;
            cause == FALLBACK_CAUSE || forall c :: c in claims && !c.supported ==> c.claim != cause
  {
    match FirstSupported(claims)
    case None =>
    case Some(chosen) =>
      var i :| 0 <= i < |claims| && claims[i] == chosen;
      forall c | c in claims && !c.supported ensures c.claim != chosen.claim {
        var j :| 0 <= j < |claims| && claims[j] == c;
        assert i != j;
      }
  }
}
