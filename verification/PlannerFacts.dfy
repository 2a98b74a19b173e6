/** What the planner plans, said of the question and of the kinds of task. */
module PlannerFacts {
  import opened Wrappers
  import opened Schemas
  import opened PlannerAgent

  ghost predicate Planned(tasks: seq<Task>, kind: TaskType) {
    exists t :: t in tasks && t.kind == kind
  }

  /** No kind of task is planned twice. */
  ghost predicate Distinct(tasks: seq<Task>) {
    forall i, j :: 0 <= i < j < |tasks| ==> tasks[i].kind != tasks[j].kind
  }

  /** Every task asks the question about the merchant. */
  ghost predicate About(tasks: seq<Task>, question: string, merchant: Option<string>) {
    forall t :: t in tasks ==> t.query == Some(question) && t.merchantId == merchant
  }

  /** Which kinds of task a question gets. */
  ghost predicate Answers(lex: Lexicon, question: string, known: bool, tasks: seq<Task>) {
    && (Planned(tasks, ScoreRisk) <==> lex.mlTask(question) in {Classification, Both} && known)
    && (Planned(tasks, ScoreRegression) <==> lex.mlTask(question) in {Regression, Both} && known)
    && (Planned(tasks, MerchantHealth) <==> lex.hits(question, HealthHints) && known)
    && (Planned(tasks, ValidateIntegrity) <==> lex.hits(question, IntegrityHints))
    && (Planned(tasks, InspectWebhooks) <==> lex.hits(question, WebhookHints))
    && (Planned(tasks, QueryMetrics) <==>
          || Planned(tasks, ScoreRisk)
          || lex.hits(question, MetricHints)
          || (known && lex.hits(question, InvestigateWord)))
    && (Planned(tasks, RetrieveDocs) <==>
          lex.hits(question, DocHints) || forall kind :: Planned(tasks, kind) ==> kind == RetrieveDocs)
    && !Planned(tasks, CompareMerchants)
  }

  /** A plan has the tasks the question calls for, each kind once, all about the merchant the question names, or else
      the one given. */
  lemma {:induction false} PlanAnswersTheQuestion(lex: Lexicon, question: string, given: Option<string>)
    ensures var plan := PlanFor(lex, question, given);
            && plan.merchantId == (if Truthy(lex.namedMerchant(question)) then lex.namedMerchant(question) else given)
            && Answers(lex, question, Truthy(plan.merchantId), plan.tasks)
            && Distinct(plan.tasks) && About(plan.tasks, question, plan.merchantId)
  {
    var merchant := ResolveMerchant(lex, question, given);
    PlanTasksAre(lex, question, merchant);
    hide PlanTasks, Answers, Distinct, About, Truthy;
  }

  lemma {:induction false} PlanTasksAre(lex: Lexicon, question: string, merchant: Option<string>)
    ensures var tasks := PlanTasks(lex, question, merchant);
            && Answers(lex, question, Truthy(merchant), tasks)
            && Distinct(tasks) && About(tasks, question, merchant)
  {
    hide FirstTasks, Truthy, Finish, Planned, Distinct, About;
    FirstTasksAre(lex, question, merchant);
    var metrics := lex.hits(question, MetricHints) || (Truthy(merchant) && lex.hits(question, InvestigateWord));
    FinishAdds(FirstTasks(lex, question, merchant), metrics, lex.hits(question, DocHints), question, merchant);
  }

  lemma {:induction false} Joined(a: seq<Task>, b: seq<Task>, question: string, merchant: Option<string>)
    requires Distinct(a) && Distinct(b) && About(a, question, merchant) && About(b, question, merchant)
    requires forall kind :: Planned(a, kind) ==> !Planned(b, kind)
    ensures Distinct(a + b) && About(a + b, question, merchant)
    ensures forall kind :: Planned(a + b, kind) <==> Planned(a, kind) || Planned(b, kind)
  {
    forall i, j | 0 <= i < j < |a + b| ensures (a + b)[i].kind != (a + b)[j].kind {
      if i < |a| <= j {
        assert a[i] in a && b[j - |a|] in b;
        assert Planned(a, a[i].kind) && Planned(b, b[j - |a|].kind);
      }
    }
    forall kind ensures Planned(a + b, kind) <==> Planned(a, kind) || Planned(b, kind) {
    }
  }

  lemma {:induction false} RiskTasksAre(lex: Lexicon, question: string, merchant: Option<string>)
    ensures var risk := RiskTasks(lex, question, merchant);
            && Distinct(risk) && About(risk, question, merchant)
            && (forall kind :: Planned(risk, kind) <==>
                  kind in {ScoreRisk, QueryMetrics}
                  && lex.mlTask(question) in {Classification, Both} && Truthy(merchant))
  {
    hide Truthy;
    var risk := RiskTasks(lex, question, merchant);
    assert forall i :: 0 <= i < |risk| ==> risk[i] in risk;
  }

  lemma {:induction false} MerchantTasksAre(lex: Lexicon, question: string, merchant: Option<string>)
    ensures var regression, health := RegressionTasks(lex, question, merchant), HealthTasks(lex, question, merchant);
            && Distinct(regression) && About(regression, question, merchant)
            && Distinct(health) && About(health, question, merchant)
            && (forall kind :: Planned(regression, kind) <==>
                  kind == ScoreRegression && lex.mlTask(question) in {Regression, Both} && Truthy(merchant))
            && (forall kind :: Planned(health, kind) <==>
                  kind == MerchantHealth && lex.hits(question, HealthHints) && Truthy(merchant))
  {
    hide Truthy;
    var regression, health := RegressionTasks(lex, question, merchant), HealthTasks(lex, question, merchant);
    assert forall i :: 0 <= i < |regression| ==> regression[i] in regression;
    assert forall i :: 0 <= i < |health| ==> health[i] in health;
  }

  lemma {:induction false} CatalogTasksAre(lex: Lexicon, question: string, merchant: Option<string>)
    ensures var catalog := CatalogTasks(lex, question, merchant);
            && Distinct(catalog) && About(catalog, question, merchant)
            && (forall kind :: Planned(catalog, kind) <==>
                  || (kind == ValidateIntegrity && lex.hits(question, IntegrityHints))
                  || (kind == InspectWebhooks && lex.hits(question, WebhookHints)))
  {
    var catalog := CatalogTasks(lex, question, merchant);
    assert forall i :: 0 <= i < |catalog| ==> catalog[i] in catalog;
  }

  lemma {:induction false} FirstTasksAre(lex: Lexicon, question: string, merchant: Option<string>)
    ensures var first := FirstTasks(lex, question, merchant);
            && Distinct(first) && About(first, question, merchant)
            && (forall kind :: Planned(first, kind) <==>
                  || (kind in {ScoreRisk, QueryMetrics}
                      && lex.mlTask(question) in {Classification, Both} && Truthy(merchant))
                  || (kind == ScoreRegression && lex.mlTask(question) in {Regression, Both} && Truthy(merchant))
                  || (kind == MerchantHealth && lex.hits(question, HealthHints) && Truthy(merchant))
                  || (kind == ValidateIntegrity && lex.hits(question, IntegrityHints))
                  || (kind == InspectWebhooks && lex.hits(question, WebhookHints)))
  {
    RiskTasksAre(lex, question, merchant);
    MerchantTasksAre(lex, question, merchant);
    CatalogTasksAre(lex, question, merchant);
    hide Truthy, Distinct, About, Planned, RiskTasks, RegressionTasks, HealthTasks, CatalogTasks;
    var risk, regression := RiskTasks(lex, question, merchant), RegressionTasks(lex, question, merchant);
    var health, catalog := HealthTasks(lex, question, merchant), CatalogTasks(lex, question, merchant);
    Joined(risk, regression, question, merchant);
    Joined(risk + regression, health, question, merchant);
    Joined(risk + regression + health, catalog, question, merchant);
  }

  lemma {:induction false} OneTask(task: Task)
    requires task.query.Some?
    ensures Distinct([task]) && About([task], task.query.value, task.merchantId)
    ensures forall kind :: Planned([task], kind) <==> kind == task.kind
  {
    assert task in [task];
  }

  lemma {:induction false} FinishAdds(first: seq<Task>, metrics: bool, docs: bool, question: string,
                                      merchant: Option<string>)
    requires Distinct(first) && About(first, question, merchant) && !Planned(first, RetrieveDocs)
    ensures var tasks := Finish(first, metrics, docs, question, merchant);
            && Distinct(tasks) && About(tasks, question, merchant)
            && (forall kind :: kind != RetrieveDocs ==>
                  (Planned(tasks, kind) <==> Planned(first, kind) || (kind == QueryMetrics && metrics)))
            && (Planned(tasks, RetrieveDocs) <==>
                  docs || forall kind :: Planned(tasks, kind) ==> kind == RetrieveDocs)
  {
    var sql := Task(Sql1, QueryMetrics, Some(question), merchant);
    var doc := Task(Doc1, RetrieveDocs, Some(question), merchant);
    OneTask(sql);
    OneTask(doc);
    var before := if metrics && !(exists t :: t in first && t.kind == QueryMetrics) then first + [sql] else first;
    assert (exists t :: t in first && t.kind == QueryMetrics) <==> Planned(first, QueryMetrics);
    if metrics && !Planned(first, QueryMetrics) {
      Joined(first, [sql], question, merchant);
    }
    assert before == [] <==> forall kind :: !Planned(before, kind) by {
      if before != [] {
        assert before[0] in before;
        assert Planned(before, before[0].kind);
      }
    }
    hide Planned, Distinct, About;
    if docs || before == [] {
      Joined(before, [doc], question, merchant);
    }
  }
}
