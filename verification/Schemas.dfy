/** The structured models the investigation graph passes between its nodes. */
module Schemas {
  import opened Wrappers

  datatype Source = Doc | Metric | Webhook | Health | Ml | Integrity

  datatype TaskType =
    | RetrieveDocs
    | QueryMetrics
    | InspectWebhooks
    | CompareMerchants
    | MerchantHealth
    | ScoreRisk
    | ScoreRegression
    | ValidateIntegrity

  /** The ids the planner uses (`ml-1`, `sql-risk`, `ml-reg-1`, `health-1`, `integrity-1`, `wh-1`, `sql-1`, `doc-1`)
      and `Gap(i, k)` for `gap-i-k`, which repeats from one refinement to the next. */
  datatype TaskId =
    | Ml1 | SqlRisk | MlReg1 | Health1 | Integrity1 | Wh1 | Sql1 | Doc1
    | Gap(index: nat, kind: TaskType)

  datatype Task = Task(id: TaskId, kind: TaskType, query: Option<string>, merchantId: Option<string>)

  datatype Plan = Plan(goal: string, merchantId: Option<string>, tasks: seq<Task>)

  /** `error`, `kind`, `riskClass` and `passed` are the metadata entries the agents look at. */
  datatype EvidenceItem = EvidenceItem(
    id: string, source: Source, text: string, error: bool, kind: string, riskClass: string, passed: bool)

  datatype MetricValue = Ratio(ratio: real) | Breakdown(codes: set<string>)

  datatype MetricResult = MetricResult(metric: string, value: MetricValue)

  datatype Hypothesis = Hypothesis(cause: string, supportingIds: seq<string>, confidence: real, category: string)

  datatype EvidenceGap = EvidenceGap(nextTask: TaskType, query: Option<string>)

  datatype Verdict = Verdict(sufficient: bool, missing: seq<EvidenceGap>)

  datatype ClaimIssue = Unsupported | Contradictory | Missing | Weak

  datatype Claim = Claim(
    claim: string, evidenceIds: seq<string>, supported: bool, critical: bool, issues: seq<ClaimIssue>)

  datatype ClaimStatus = StatusSupported | StatusUnsupported | StatusContradictory | StatusWeak | StatusMissing

  datatype Verification = Verification(
    claims: seq<Claim>, needsMoreEvidence: bool, gaps: seq<EvidenceGap>, status: ClaimStatus)

  datatype Severity = Low | Medium | High

  datatype Language = English | Hindi | Hinglish

  datatype EvidenceRef = EvidenceRef(id: string, source: Source)

  datatype Report = Report(
    summary: string,
    evidence: seq<EvidenceRef>,
    likelyCause: Hypothesis,
    alternatives: seq<Hypothesis>,
    confidence: real,
    severity: Severity,
    evidenceSufficient: bool)

  /** Remarks on wording never block a report; the other three kinds do. */
  datatype WordingIssue = Clarity | Completeness
  datatype CriticIssue = Wording(remark: WordingIssue) | EvidenceCoverage | UnsupportedClaims | FactualConsistency

  datatype Critique = Critique(approved: bool, issues: seq<CriticIssue>)

  datatype Code = GatewayTimeout | InsufficientFunds | DoNotHonor | AuthenticationFailed | WebhookTimeout

  datatype HintFamily = DocHints | MetricHints | HealthHints | WebhookHints | IntegrityHints | InvestigateWord

  datatype MlTask = NoModel | Classification | Regression | Both

  /** Every test the agents make on raw text. Nothing is assumed of these functions: what is proved of the graph
      holds for whatever the tokeniser, the stemmer and the substring tests answer. */
  datatype Lexicon = Lexicon(
    hits: (string, HintFamily) -> bool,            // does the expanded question contain a word of the family
    mlTask: string -> MlTask,
    namedMerchant: string -> Option<string>,       // a merchant id or a known merchant name in the question
    stems: string -> set<string>,                  // stemmed tokens of a text
    generic: set<string>,                          // words too common to count as an overlap
    codes: string -> set<Code>,                    // error codes written in a text
    upperHas: (string, string) -> bool,            // is the word in the upper-cased text
    lowerHas: (string, string) -> bool,            // is the word in the lower-cased text
    wording: (string, string) -> seq<WordingIssue> // remarks on a question and its summary
  )

  /** One entry of the execution trace per node action. */
  datatype Event =
    | AcceptQuery
    | PlanMade(kinds: seq<TaskType>)
    | InvestigateTimeout
    | InvestigateSkip
    | TaskFailed(kind: TaskType)
    | RunTask(kind: TaskType)
    | RagSearch(index: nat)
    | RagRewrite(index: nat)
    | RagAnswer
    | Merge(count: nat)
    | Evaluate(sufficient: bool)
    | KeepPending
    | QueueGaps(count: nat)
    | Propose
    | Verify(status: ClaimStatus)
    | Review(approved: bool)
    | Write(sufficient: bool)

  function Ids(items: seq<EvidenceItem>): (ids: seq<string>)
    ensures |ids| == |items|
    ensures forall i :: 0 <= i < |ids| ==> ids[i] == items[i].id
  {
    seq(|items|, i requires 0 <= i < |items| => items[i].id)
  }

  function Take<T>(xs: seq<T>, n: nat): (r: seq<T>)
    ensures r <= xs && |r| <= n
  {
    if |xs| <= n then xs else xs[..n]
  }

  function Min(a: real, b: real): real {
    if a <= b then a else b
  }

  /** Python's truth of an optional string. */
  predicate Truthy(s: Option<string>) {
    s.Some? && s.value != ""
  }
}
