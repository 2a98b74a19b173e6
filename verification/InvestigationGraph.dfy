/** The compiled graph: every node, every edge and the three routers, one `Step` per executed node. */
module InvestigationGraph {
  import opened Wrappers
  import opened Schemas
  import opened InvestigationState
  import opened Investigate
  import opened PlannerAgent
  import opened SufficiencyAgent
  import opened IncidentRiskAgent
  import opened VerifierAgent
  import opened WriterAgent
  import opened CriticAgent

  function Kinds(tasks: seq<Task>): seq<TaskType> {
    seq(|tasks|, i requires 0 <= i < |tasks| => tasks[i].kind)
  }

  function PlannerStep(lex: Lexicon, s: State): State {
    var plan := PlanFor(lex, s.question, s.merchantId);
    s.(node := AtInvestigate, plan := Some(plan), merchantId := plan.merchantId, pending := plan.tasks,
       trace := s.trace + [AcceptQuery] + [PlanMade(Kinds(plan.tasks))])
  }

  function AggregateStep(s: State): State {
    s.(node := AtSufficiency, trace := s.trace + [Merge(|s.evidence|)])
  }

  /** `error` and `timed_out` both stop the investigation. */
  predicate Live(s: State) {
    !s.timedOut && !Truthy(s.error)
  }

  function RouteAfterSufficiency(s: State): Node {
    if !Live(s) then AtWriter
    else if s.sufficiency.Some? && s.sufficiency.value.sufficient then AtIncident
    else if s.iteration >= Maximum(s) then AtWriter
    else AtRefine
  }

  function SufficiencyStep(s: State): State {
    var verdict := Judge(s.plan, s.evidence);
    var judged := s.(sufficiency := Some(verdict), trace := s.trace + [Evaluate(verdict.sufficient)]);
    judged.(node := RouteAfterSufficiency(judged))
  }

  function QueuedGaps(s: State): seq<EvidenceGap> {
    (if s.sufficiency.Some? then s.sufficiency.value.missing else [])
    + (if s.verification.Some? then s.verification.value.gaps else [])
  }

  function TasksFromGaps(gaps: seq<EvidenceGap>): (tasks: seq<Task>)
    ensures |tasks| == |gaps|
    ensures forall i :: 0 <= i < |tasks| ==> tasks[i] == TaskFromGap(gaps[i], i)
  {
    seq(|gaps|, i requires 0 <= i < |gaps| => TaskFromGap(gaps[i], i))
  }

  function RefineStep(s: State): State {
    if s.pending != [] then
      s.(node := AtInvestigate, trace := s.trace + [KeepPending])
    else
      var gaps := QueuedGaps(s);
      s.(node := AtInvestigate, pending := TasksFromGaps(gaps), trace := s.trace + [QueueGaps(|gaps|)])
  }

  function IncidentStep(lex: Lexicon, s: State): State {
    s.(node := AtVerifier, hypotheses := Hypotheses(lex, s.evidence, s.metrics), trace := s.trace + [Propose])
  }

  function RouteAfterVerifier(s: State): Node {
    if !Live(s) then AtWriter
    else if s.verification.Some? && s.verification.value.needsMoreEvidence && s.iteration < Maximum(s) then AtRefine
    else AtWriter
  }

  function VerifierStep(lex: Lexicon, s: State): State {
    var result := VerifyAll(lex, s.hypotheses, s.evidence);
    var verified :=
      s.(claims := result.claims, verification := Some(result), trace := s.trace + [Verify(result.status)]);
    verified.(node := RouteAfterVerifier(verified))
  }

  function ReportOf(s: State): Report {
    WriteReport(s.question, s.evidence, s.metrics, s.hypotheses, s.sufficiency, s.claims, s.error, s.timedOut,
                s.language)
  }

  function WriterStep(s: State): State {
    var report := ReportOf(s);
    s.(node := AtCritic, report := Some(report),
       revisions := if s.critique.Some? then s.revisions + 1 else s.revisions,
       trace := s.trace + [Write(report.evidenceSufficient)])
  }

  function RouteAfterCritic(s: State): Node {
    if s.critique.Some? && !s.critique.value.approved && s.revisions < 1 then AtWriter else AtEnd
  }

  function CriticStep(lex: Lexicon, s: State): State {
    var critique := ReviewReport(lex, s.question, s.plan, s.sufficiency, s.claims, s.report);
    var reviewed := s.(critique := Some(critique), trace := s.trace + [Review(critique.approved)]);
    reviewed.(node := RouteAfterCritic(reviewed))
  }

  /** One executed node. A finished run stays finished. */
  function Step(lex: Lexicon, s: State, env: Env): State {
    match s.node
    case AtPlanner => PlannerStep(lex, s)
    case AtInvestigate => InvestigateStep(s, env)
    case AtAggregate => AggregateStep(s)
    case AtSufficiency => SufficiencyStep(s)
    case AtRefine => RefineStep(s)
    case AtIncident => IncidentStep(lex, s)
    case AtVerifier => VerifierStep(lex, s)
    case AtWriter => WriterStep(s)
    case AtCritic => CriticStep(lex, s)
    case AtEnd => s
  }

  /** The state after as many nodes as there are oracles. */
  function Run(lex: Lexicon, s: State, envs: seq<Env>): State {
    if envs == [] then s else Step(lex, Run(lex, s, envs[..|envs| - 1]), envs[|envs| - 1])
  }
}
