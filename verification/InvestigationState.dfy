/** The shared state of the graph, and the oracle for everything the graph cannot foresee. */
module InvestigationState {
  import opened Wrappers
  import opened Schemas

  datatype Node =
    | AtPlanner | AtInvestigate | AtAggregate | AtSufficiency | AtRefine
    | AtIncident | AtVerifier | AtWriter | AtCritic | AtEnd

  /** `node` is the node that runs next. `retrieval` is the number of rounds of the last document search. */
  datatype State = State(
    node: Node,
    question: string,
    merchantId: Option<string>,
    language: Language,
    maxIterations: int,
    plan: Option<Plan>,
    evidence: seq<EvidenceItem>,
    metrics: seq<MetricResult>,
    hypotheses: seq<Hypothesis>,
    sufficiency: Option<Verdict>,
    claims: seq<Claim>,
    verification: Option<Verification>,
    critique: Option<Critique>,
    report: Option<Report>,
    trace: seq<Event>,
    iteration: nat,
    revisions: nat,
    pending: seq<Task>,
    completed: seq<TaskId>,
    error: Option<string>,
    timedOut: bool,
    retrieval: Option<nat>)

  function Initial(question: string, merchantId: Option<string>, language: Language, maxIterations: int): State {
    State(AtPlanner, question, merchantId, language, maxIterations, None, [], [], [], None, [], None, None, None, [],
          0, 0, [], [], None, false, None)
  }

  /** What `_run_task` does with one task: raise, or return items, metrics and perhaps a document search. */
  datatype Outcome =
    | Raised(message: string)
    | Returned(items: seq<EvidenceItem>, metrics: seq<MetricResult>, rag: Option<nat>)

  /** One visit of the investigate node: is the deadline past on entry, is it past before task i, and what does
      task i do. Nothing is assumed of these answers. */
  datatype Env = Env(expiredOnEntry: bool, expired: nat -> bool, outcome: nat -> Outcome)

  /** `int(state.get("max_iterations") or 1)` */
  function Maximum(s: State): int {
    if s.maxIterations == 0 then 1 else s.maxIterations
  }

  /** The number of investigate visits a run may make. */
  function Rounds(s: State): nat {
    if s.maxIterations < 1 then 1 else s.maxIterations
  }
}
