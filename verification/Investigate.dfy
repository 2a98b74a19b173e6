/** `investigate_node`: run the pending tasks until the deadline, whatever each of them does. */
module Investigate {
  import opened Wrappers
  import opened Schemas
  import opened EvidenceMerge
  import opened InvestigationState

  datatype Batch = Batch(
    evidence: seq<EvidenceItem>, metrics: seq<MetricResult>, retrieval: Option<nat>,
    completed: seq<TaskId>, failures: seq<string>, trace: seq<Event>)

  function Label(kind: TaskType): (name: string)
    ensures name != ""
  {
    match kind
    case RetrieveDocs => "retrieve_docs"
    case QueryMetrics => "query_metrics"
    case InspectWebhooks => "inspect_webhooks"
    case CompareMerchants => "compare_merchants"
    case MerchantHealth => "merchant_health"
    case ScoreRisk => "score_risk"
    case ScoreRegression => "score_regression"
    case ValidateIntegrity => "validate_integrity"
  }

  function FailureText(task: Task, message: string): (text: string)
    ensures text != ""
  {
    Take(Label(task.kind) + ":" + message, 180)
  }

  function JoinFailures(failures: seq<string>): (text: string)
    ensures failures != [] && failures[0] != "" ==> text != ""
  {
    if failures == [] then "" else
    if |failures| == 1 then failures[0] else failures[0] + "; " + JoinFailures(failures[1..])
  }

  /** The events of a document search of n rounds: a search per round, a rewrite between two, one answer. */
  function RagEvents(n: nat): (events: seq<Event>)
    ensures |events| == if n == 0 then 1 else 2 * n
  {
    if n == 0 then [RagAnswer] else
    seq(2 * n, (i: nat) =>
      if i == 2 * n - 1 then RagAnswer else if i % 2 == 0 then RagSearch(i / 2) else RagRewrite(i / 2 + 1))
  }

  method RagTraces(n: nat) returns (events: seq<Event>)
    ensures events == RagEvents(n)
  {
    events := [];
    for i := 0 to n
      invariant |events| == if i == 0 then 0 else if i == n then 2 * n - 1 else 2 * i
      invariant forall k :: 0 <= k < |events| ==>
                  events[k] == if k % 2 == 0 then RagSearch(k / 2) else RagRewrite(k / 2 + 1)
    {
      events := events + [RagSearch(i)];
      if i + 1 < n {
        events := events + [RagRewrite(i + 1)];
      }
    }
    events := events + [RagAnswer];
  }

  function Start(s: State): Batch {
    Batch(s.evidence, s.metrics, s.retrieval, [], [], [])
  }

  function AfterTask(b: Batch, task: Task, outcome: Outcome): Batch {
    match outcome
    case Raised(message) =>
      b.(failures := b.failures + [FailureText(task, message)], trace := b.trace + [TaskFailed(task.kind)])
    case Returned(items, metrics, rag) =>
      Batch(
        Merged(b.evidence + items),
        b.metrics + metrics,
        if rag.Some? then rag else b.retrieval,
        b.completed + [task.id],
        b.failures,
        b.trace + (if rag.Some? then RagEvents(rag.value) else []) + [RunTask(task.kind)])
  }

  /** The batch after its first k tasks. */
  function After(s: State, env: Env, k: nat): Batch
    requires k <= |s.pending|
  {
    if k == 0 then Start(s) else AfterTask(After(s, env, k - 1), s.pending[k - 1], env.outcome(k - 1))
  }

  /** The first task, from i on, before which the deadline is past; n if there is none. */
  function Stop(env: Env, i: nat, n: nat): (k: nat)
    requires i <= n
    ensures i <= k <= n
    ensures forall j :: i <= j < k ==> !env.expired(j)
    ensures k < n ==> env.expired(k)
    decreases n - i
  {
    if i == n || env.expired(i) then i else Stop(env, i + 1, n)
  }

  function InvestigateStep(s: State, env: Env): State {
    var next := s.(node := AtAggregate, iteration := s.iteration + 1);
    if env.expiredOnEntry then
      next.(timedOut := true, pending := [], trace := s.trace + [InvestigateTimeout])
    else if s.pending == [] then
      next.(trace := s.trace + [InvestigateSkip])
    else
      var k := Stop(env, 0, |s.pending|);
      var b := After(s, env, k);
      var worked := next.(evidence := b.evidence, metrics := b.metrics, completed := s.completed + b.completed);
      if k < |s.pending| then
        worked.(timedOut := true, pending := s.pending[k..], trace := s.trace + b.trace + [InvestigateTimeout])
      else
        worked.(pending := [], retrieval := b.retrieval, trace := s.trace + b.trace,
                error := if b.failures != [] && b.completed == [] then Some(JoinFailures(b.failures)) else s.error)
  }

  method InvestigateNode(s: State, env: Env) returns (next: State)
    ensures next == InvestigateStep(s, env)
  {
    hide AfterTask;
    var iteration, pending := s.iteration + 1, s.pending;
    if env.expiredOnEntry {
      return s.(node := AtAggregate, iteration := iteration, timedOut := true, pending := [],
                trace := s.trace + [InvestigateTimeout]);
    }
    if pending == [] {
      return s.(node := AtAggregate, iteration := iteration, trace := s.trace + [InvestigateSkip]);
    }
    var b := Start(s);
    for index := 0 to |pending|
      invariant Stop(env, 0, |pending|) == Stop(env, index, |pending|)
      invariant b == After(s, env, index)
    {
      if env.expired(index) {
        return s.(node := AtAggregate, iteration := iteration, timedOut := true, pending := pending[index..],
                  completed := s.completed + b.completed, evidence := b.evidence, metrics := b.metrics,
                  trace := s.trace + b.trace + [InvestigateTimeout]);
      }
      b := TryTask(b, pending[index], env.outcome(index));
    }
    next := s.(node := AtAggregate, iteration := iteration, pending := [], completed := s.completed + b.completed,
               evidence := b.evidence, metrics := b.metrics, retrieval := b.retrieval, trace := s.trace + b.trace,
               error := if b.failures != [] && b.completed == [] then Some(JoinFailures(b.failures)) else s.error);
  }

  /** One turn of the loop: the `try` around `_run_task`. */
  method TryTask(b: Batch, task: Task, outcome: Outcome) returns (after: Batch)
    ensures after == AfterTask(b, task, outcome)
  {
    match outcome {
      case Raised(message) =>
        after := b.(failures := b.failures + [FailureText(task, message)], trace := b.trace + [TaskFailed(task.kind)]);
      case Returned(items, metrics, rag) =>
        var evidence := MergeEvidence(b.evidence, items);
        var traces, retrieval := b.trace, b.retrieval;
        if rag.Some? {
          var events := RagTraces(rag.value);
          traces := traces + events;
          retrieval := rag;
        }
        traces := traces + [RunTask(task.kind)];
        after := Batch(evidence, b.metrics + metrics, retrieval, b.completed + [task.id], b.failures, traces);
        assert b.trace + [] == b.trace;
    }
  }

  // ----- what a batch leaves behind

  predicate IsTaskEvent(event: Event) {
    event.RunTask? || event.TaskFailed?
  }

  function TaskEvents(trace: seq<Event>): seq<Event> {
    if trace == [] then [] else
    TaskEvents(trace[..|trace| - 1])
    + (if IsTaskEvent(trace[|trace| - 1]) then [trace[|trace| - 1]] else [])
  }

  /** The one event task i is entitled to. */
  function EventOf(s: State, env: Env, i: nat): Event
    requires i < |s.pending|
  {
    if env.outcome(i).Raised? then TaskFailed(s.pending[i].kind) else RunTask(s.pending[i].kind)
  }

  /** The ids of the tasks among the first k that returned. */
  function Returning(s: State, env: Env, k: nat): seq<TaskId>
    requires k <= |s.pending|
  {
    if k == 0 then [] else
    Returning(s, env, k - 1) + (if env.outcome(k - 1).Returned? then [s.pending[k - 1].id] else [])
  }

  lemma {:induction false} TaskEventsAppend(a: seq<Event>, b: seq<Event>)
    ensures TaskEvents(a + b) == TaskEvents(a) + TaskEvents(b)
  {
    if b == [] {
      assert a + b == a;
    } else {
      assert (a + b)[..|a + b| - 1] == a + b[..|b| - 1];
      TaskEventsAppend(a, b[..|b| - 1]);
    }
  }

  lemma {:induction false} TaskEventsNext(a: seq<Event>, e: Event)
    ensures TaskEvents(a + [e]) == TaskEvents(a) + (if IsTaskEvent(e) then [e] else [])
  {
    assert (a + [e])[..|a + [e]| - 1] == a;
  }

  lemma {:induction false} NoTaskEvents(trace: seq<Event>)
    requires forall e :: e in trace ==> !IsTaskEvent(e)
    ensures TaskEvents(trace) == []
  {
    if trace != [] {
      NoTaskEvents(trace[..|trace| - 1]);
    }
  }

  lemma {:induction false} RagEventsAreNoTaskEvents(n: nat)
    ensures forall e :: e in RagEvents(n) ==> e.RagSearch? || e.RagRewrite? || e.RagAnswer?
  {
  }

  lemma {:induction false} TaskEventsOfAfterTask(b: Batch, task: Task, outcome: Outcome)
    ensures TaskEvents(AfterTask(b, task, outcome).trace)
         == TaskEvents(b.trace) + [if outcome.Raised? then TaskFailed(task.kind) else RunTask(task.kind)]
  {
    hide Merged, RagEvents, FailureText, TaskEvents;
    match outcome
    case Raised(_) =>
      TaskEventsNext(b.trace, TaskFailed(task.kind));
    case Returned(_, _, rag) =>
      var middle := if rag.Some? then RagEvents(rag.value) else [];
      if rag.Some? {
        RagEventsAreNoTaskEvents(rag.value);
      }
      NoTaskEvents(middle);
      TaskEventsAppend(b.trace, middle);
      TaskEventsNext(b.trace + middle, RunTask(task.kind));
  }

  /** One event per task, in the order of the tasks. */
  function EventsOf(s: State, env: Env, k: nat): (events: seq<Event>)
    requires k <= |s.pending|
    ensures |events| == k && forall i :: 0 <= i < k ==> events[i] == EventOf(s, env, i)
  {
    if k == 0 then [] else EventsOf(s, env, k - 1) + [EventOf(s, env, k - 1)]
  }

  lemma {:induction false} OneEventPerTask(s: State, env: Env, k: nat)
    requires k <= |s.pending|
    ensures TaskEvents(After(s, env, k).trace) == EventsOf(s, env, k)
  {
    hide AfterTask;
    if k > 0 {
      OneEventPerTask(s, env, k - 1);
      TaskEventsOfAfterTask(After(s, env, k - 1), s.pending[k - 1], env.outcome(k - 1));
    }
  }

  /** Every task a batch reached either returned or failed, and the ids of those that returned are kept in order. */
  lemma {:induction false} ReturnedOrFailed(s: State, env: Env, k: nat)
    requires k <= |s.pending|
    ensures After(s, env, k).completed == Returning(s, env, k)
    ensures |After(s, env, k).completed| + |After(s, env, k).failures| == k
    ensures After(s, env, k).failures != [] ==> After(s, env, k).failures[0] != ""
  {
    hide Merged, RagEvents, FailureText;
    if k > 0 {
      ReturnedOrFailed(s, env, k - 1);
    }
  }

  /** The whole node: completed ids, failures and the leftover tasks partition the batch in order. The leftover is
      nonempty exactly when the deadline passes inside the batch; a deadline already past on entry discards it all. */
  lemma {:induction false} InvestigateAccountsForTheBatch(s: State, env: Env)
    requires s.pending != []
    ensures var next := InvestigateStep(s, env);
            var k := if env.expiredOnEntry then 0 else Stop(env, 0, |s.pending|);
            && next.pending == (if env.expiredOnEntry then [] else s.pending[k..])
            && next.completed == s.completed + Returning(s, env, k)
            && (next.timedOut <==> s.timedOut || env.expiredOnEntry || k < |s.pending|)
            && TaskEvents(next.trace) == TaskEvents(s.trace) + EventsOf(s, env, k)
  {
    hide After, TaskEvents, JoinFailures;
    if env.expiredOnEntry {
      TaskEventsNext(s.trace, InvestigateTimeout);
    } else {
      var k := Stop(env, 0, |s.pending|);
      var b := After(s, env, k);
      OneEventPerTask(s, env, k);
      ReturnedOrFailed(s, env, k);
      TaskEventsAppend(s.trace, b.trace);
      TaskEventsNext(s.trace + b.trace, InvestigateTimeout);
    }
  }

  /** An error is recorded exactly when the batch ran to its end and every one of its tasks failed. */
  lemma {:induction false} ErrorIffAllFailed(s: State, env: Env)
    requires s.pending != [] && !Truthy(s.error)
    ensures Truthy(InvestigateStep(s, env).error) <==>
              && !env.expiredOnEntry
              && Stop(env, 0, |s.pending|) == |s.pending|
              && forall i :: 0 <= i < |s.pending| ==> env.outcome(i).Raised?
  {
    var n := |s.pending|;
    ReturnedOrFailed(s, env, n);
    ReturningEmpty(s, env, n);
  }

  lemma {:induction false} ReturningEmpty(s: State, env: Env, k: nat)
    requires k <= |s.pending|
    ensures Returning(s, env, k) == [] <==> forall i :: 0 <= i < k ==> env.outcome(i).Raised?
  {
    if k > 0 {
      ReturningEmpty(s, env, k - 1);
    }
  }

  /** Evidence ids are never lost, whatever the tasks return. */
  lemma {:induction false} EvidenceIdsSurvive(s: State, env: Env, k: nat)
    requires k <= |s.pending|
    ensures forall id :: id in Ids(s.evidence) ==> id in Ids(After(s, env, k).evidence)
  {
    hide Merged, RagEvents, FailureText;
    if k > 0 {
      EvidenceIdsSurvive(s, env, k - 1);
      var before := After(s, env, k - 1).evidence;
      match env.outcome(k - 1)
      case Raised(_) =>
      case Returned(items, _, _) =>
        MergedIds(before + items);
        assert Ids(before + items) == Ids(before) + Ids(items);
    }
  }

  /** The metrics of the tasks that returned, in the order of the tasks. */
  function ReturnedMetrics(env: Env, k: nat): seq<MetricResult> {
    if k == 0 then [] else
    ReturnedMetrics(env, k - 1) + if env.outcome(k - 1).Returned? then env.outcome(k - 1).metrics else []
  }

  function ReturnedItems(env: Env, k: nat): seq<EvidenceItem> {
    if k == 0 then [] else
    ReturnedItems(env, k - 1) + if env.outcome(k - 1).Returned? then env.outcome(k - 1).items else []
  }

  /** Nothing a task returns is lost on the way: the metrics follow the old ones in order, every item's id is collected
      beside the old ones and no other, and what is collected is an old item or a returned one. */
  lemma {:induction false} WhatReturnsIsCollected(s: State, env: Env, k: nat)
    requires k <= |s.pending|
    ensures After(s, env, k).metrics == s.metrics + ReturnedMetrics(env, k)
    ensures forall id :: id in Ids(After(s, env, k).evidence)
                    <==> id in Ids(s.evidence) || id in Ids(ReturnedItems(env, k))
    ensures forall item :: item in After(s, env, k).evidence ==> item in s.evidence || item in ReturnedItems(env, k)
  {
    hide Merged, RagEvents, FailureText;
    if k > 0 {
      WhatReturnsIsCollected(s, env, k - 1);
      var before := After(s, env, k - 1).evidence;
      match env.outcome(k - 1)
      case Raised(_) =>
        assert ReturnedItems(env, k) == ReturnedItems(env, k - 1);
      case Returned(items, _, _) =>
        MergedIds(before + items);
        assert Ids(before + items) == Ids(before) + Ids(items);
        assert Ids(ReturnedItems(env, k)) == Ids(ReturnedItems(env, k - 1)) + Ids(items);
    }
  }

  /** The node passes all of it on, up to the deadline. */
  lemma {:induction false} InvestigateCollects(s: State, env: Env)
    requires s.pending != []
    ensures var next := InvestigateStep(s, env);
            var k := if env.expiredOnEntry then 0 else Stop(env, 0, |s.pending|);
            && next.metrics == s.metrics + ReturnedMetrics(env, k)
            && (forall id :: id in Ids(next.evidence) <==> id in Ids(s.evidence) || id in Ids(ReturnedItems(env, k)))
            && next.iteration == s.iteration + 1
  {
    hide After, Stop;
    var k := if env.expiredOnEntry then 0 else Stop(env, 0, |s.pending|);
    WhatReturnsIsCollected(s, env, k);
    StartOfBatch(s, env);
  }

  lemma {:induction false} StartOfBatch(s: State, env: Env)
    ensures After(s, env, 0).metrics == s.metrics && After(s, env, 0).evidence == s.evidence
  {
  }
}
