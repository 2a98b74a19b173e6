/** The deterministic planner, with its tests on the question abstracted to `Lexicon.hits`. */
module PlannerAgent {
  import opened Wrappers
  import opened Schemas

  /** Task types `_run_task` refuses when no merchant is known. */
  predicate NeedsMerchant(kind: TaskType) {
    kind in {MerchantHealth, ScoreRisk, ScoreRegression}
  }

  function ResolveMerchant(lex: Lexicon, question: string, given: Option<string>): Option<string> {
    if Truthy(lex.namedMerchant(question)) then lex.namedMerchant(question) else given
  }

  function RiskTasks(lex: Lexicon, question: string, merchant: Option<string>): seq<Task> {
    if lex.mlTask(question) in {Classification, Both} && Truthy(merchant) then
      [Task(Ml1, ScoreRisk, Some(question), merchant), Task(SqlRisk, QueryMetrics, Some(question), merchant)]
    else []
  }

  function RegressionTasks(lex: Lexicon, question: string, merchant: Option<string>): seq<Task> {
    if lex.mlTask(question) in {Regression, Both} && Truthy(merchant) then
      [Task(MlReg1, ScoreRegression, Some(question), merchant)]
    else []
  }

  function HealthTasks(lex: Lexicon, question: string, merchant: Option<string>): seq<Task> {
    if lex.hits(question, HealthHints) && Truthy(merchant) then
      [Task(Health1, MerchantHealth, Some(question), merchant)]
    else []
  }

  function CatalogTasks(lex: Lexicon, question: string, merchant: Option<string>): seq<Task> {
    (if lex.hits(question, IntegrityHints) then
       [Task(Integrity1, ValidateIntegrity, Some(question), merchant)] else [])
    + (if lex.hits(question, WebhookHints) then
         [Task(Wh1, InspectWebhooks, Some(question), merchant)] else [])
  }

  /** The tasks queued before the metric and document questions are looked at. */
  function FirstTasks(lex: Lexicon, question: string, merchant: Option<string>): seq<Task> {
    RiskTasks(lex, question, merchant) + RegressionTasks(lex, question, merchant)
    + HealthTasks(lex, question, merchant) + CatalogTasks(lex, question, merchant)
  }

  /** The metric task unless one is queued already, then the document task if asked for or if nothing else is queued. */
  function Finish(first: seq<Task>, metrics: bool, docs: bool, question: string, merchant: Option<string>): seq<Task> {
    var before :=
      if metrics && !(exists t :: t in first && t.kind == QueryMetrics) then
        first + [Task(Sql1, QueryMetrics, Some(question), merchant)]
      else first;
    if docs || before == [] then before + [Task(Doc1, RetrieveDocs, Some(question), merchant)] else before
  }

  function PlanTasks(lex: Lexicon, question: string, merchant: Option<string>): seq<Task> {
    Finish(FirstTasks(lex, question, merchant),
           lex.hits(question, MetricHints) || (Truthy(merchant) && lex.hits(question, InvestigateWord)),
           lex.hits(question, DocHints), question, merchant)
  }

  function PlanFor(lex: Lexicon, question: string, given: Option<string>): Plan {
    var merchant := ResolveMerchant(lex, question, given);
    Plan(question, merchant, PlanTasks(lex, question, merchant))
  }

  /** The planner, branch by branch. */
  method PlanQuestion(lex: Lexicon, question: string, given: Option<string>) returns (plan: Plan)
    ensures plan == PlanFor(lex, question, given)
  {
    hide FirstTasks, ResolveMerchant, Truthy;
    var merchant := ResolveMerchant(lex, question, given);
    var tasks := PlanFirstTasks(lex, question, merchant);
    if lex.hits(question, MetricHints) || (Truthy(merchant) && lex.hits(question, InvestigateWord)) {
      if !(exists t :: t in tasks && t.kind == QueryMetrics) {
        tasks := tasks + [Task(Sql1, QueryMetrics, Some(question), merchant)];
      }
    }
    if lex.hits(question, DocHints) || tasks == [] {
      tasks := tasks + [Task(Doc1, RetrieveDocs, Some(question), merchant)];
    }
    plan := Plan(question, merchant, tasks);
  }

  method PlanFirstTasks(lex: Lexicon, question: string, merchant: Option<string>) returns (tasks: seq<Task>)
    ensures tasks == FirstTasks(lex, question, merchant)
  {
    hide Truthy;
    tasks := [];
    if lex.mlTask(question) in {Classification, Both} && Truthy(merchant) {
      tasks := tasks + [Task(Ml1, ScoreRisk, Some(question), merchant)];
      tasks := tasks + [Task(SqlRisk, QueryMetrics, Some(question), merchant)];
    }
    var risk := RiskTasks(lex, question, merchant);
    assert tasks == risk;
    hide RiskTasks;
    if lex.mlTask(question) in {Regression, Both} && Truthy(merchant) {
      tasks := tasks + [Task(MlReg1, ScoreRegression, Some(question), merchant)];
    }
    var regression := RegressionTasks(lex, question, merchant);
    assert tasks == risk + regression;
    hide RegressionTasks;
    if lex.hits(question, HealthHints) && Truthy(merchant) {
      tasks := tasks + [Task(Health1, MerchantHealth, Some(question), merchant)];
    }
    var health := HealthTasks(lex, question, merchant);
    assert tasks == risk + regression + health;
    hide HealthTasks;
    if lex.hits(question, IntegrityHints) {
      tasks := tasks + [Task(Integrity1, ValidateIntegrity, Some(question), merchant)];
    }
    if lex.hits(question, WebhookHints) {
      tasks := tasks + [Task(Wh1, InspectWebhooks, Some(question), merchant)];
    }
    assert tasks == risk + regression + health + CatalogTasks(lex, question, merchant);
  }

  /** A plan is never empty, and asks for a merchant's score only when the plan itself names the merchant. */
  ghost predicate WellFormed(plan: Plan) {
    && plan.tasks != []
    && (forall t :: t in plan.tasks && NeedsMerchant(t.kind) ==> Truthy(plan.merchantId))
  }

  lemma {:induction false} PlanIsWellFormed(lex: Lexicon, question: string, given: Option<string>)
    ensures WellFormed(PlanFor(lex, question, given))
  {
    var merchant := ResolveMerchant(lex, question, given);
    var first := FirstTasks(lex, question, merchant);
    forall t | t in PlanFor(lex, question, given).tasks && NeedsMerchant(t.kind)
      ensures Truthy(merchant)
    {
      assert t in first;
      assert t in RiskTasks(lex, question, merchant)
        || t in RegressionTasks(lex, question, merchant)
        || t in HealthTasks(lex, question, merchant);
    }
  }
}
