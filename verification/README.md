# PayOps: a verified model

PayOps investigates payment incidents. A graph of agents plans tasks, collects evidence, names a cause, has it verified
and reviewed, and writes a report. Beside it run a double-entry ledger with injected failures, a bounded retrieval loop
over documents, sessions with roles and password resets, a store of runs and evidence, and a few analytics. This project
models that behaviour in Dafny and proves what it promises, for all inputs, all runs and all interleavings.

`dafny verify dfyconfig.toml` checks everything. Automatic induction is switched off on every lemma: each proof is the one
written.

## How the parts are modelled

**The investigation graph** (`Schemas`, `PlannerAgent`, `SufficiencyAgent`, `IncidentRiskAgent`, `VerifierAgent`,
`WriterAgent`, `CriticAgent`, `EvidenceMerge`, `Investigate`, `InvestigationGraph`, `GraphInvariant`, `GraphRuns`,
`GraphPersistence`, `GraphBound`, and `PlannerFacts` and `AgentFacts` for what the agents plan and conclude). One
`Step` per executed node; a run is a `Step` for each of a sequence of oracles. An oracle says what every task does (any
items, any metrics, or an exception) and when the deadline passes. Tests on raw text (tokens, stems, substrings, error
codes) are fields of a `Lexicon` of which nothing is assumed. The main results: every run ends within 6N + 2 nodes, and for
every request some run takes them all; the
critic approves the first draft of every run, so the revision edge, "keep pending" and "skip" are dead; the final verdict
is an exact condition on the run; a run that neither fails nor times out gives up only when it is out of rounds; every
citation resolves.

**The ledger** (`LedgerBooks`, `LedgerTransfer`, `LedgerRuns`, `LedgerAudit`, `LedgerConcurrency`). The transfer is an imperative
program over a database object and a session with a private workspace, proved equal to a function of the committed books.
Runs of seedings and transfers always reconcile, and on
what they reach a transfer commits under an exact condition. For concurrency, transfers interleave step by step, the two row reads
apart, under the documented isolation contract in either of its two forms (rows that were read stay locked, or a stale
commit is refused); every interleaving is serial. Without the contract the books stay reconciled exactly when every commit
still finds the rows it read, and two transfers that both read first lose an update exactly when they share an account.

**ROC-AUC** (`Sums`, `DoubleSums`, `RocAuc`). `argsort` is any permutation that sorts; ties may be broken in any way.

**The retrieval loop** (`Sorting`, `RagQueries`, `RagLoop`, `RagRuns`, `RagStops`, `RagAnswer`). The loop is a method; what
it tried is a `Chain` of queries that `Stopped` for a reason, and the properties are about every such chain. Search results
and relevance are arbitrary. Case mapping works character by character.

**Sessions, roles and resets** (`AuthModel`, `AuthService`, `AuthRuns`, `AuthPasswords`). A class whose methods change rows
in place, and temporal properties over every sequence of requests and clock ticks: who may log in is read off the history
of signups, resets and changes.

**Store, chunking, features, webhooks, health score** (`EvidenceStore`, `Chunking`, `Features`, `Webhooks`,
`WebhookFindings`, `HealthScore`). Loops over dictionaries and texts, each a method proved equal to a function with its
own laws.

Where a property holds only on part of the inputs, the exact condition is proved and a failing input is given: commits
without the isolation contract, empty run ids in the store, window sizes and overlaps that lose text, labels other than 0
and 1 in the AUC, and the one-sided entry for WEBHOOK_TIMEOUT in the table of opposite codes.

The code and its remarks disagree in one place: `packages/payops_core/ledger/isolation.py` says a lock is taken with an
immediate begin on SQLite, and `connect_for_transfer` issues none. The isolation contract is therefore an assumption here.

## Model

| member | source | states |
|---|---|---|
| EvidenceMerge.MergeEvidence | packages/payops_core/graph/nodes.py:469-473 | the dictionary loop leaves one item per id, in order of first arrival, the last to arrive |
| EvidenceMerge.MergedIds | packages/payops_core/graph/nodes.py:469-473 | ids stay distinct, exactly the arrived ids are present, nothing is invented |
| EvidenceMerge.MergedKeepsPlaces | packages/payops_core/graph/nodes.py:469-473 | merging more items keeps every known id at its place |
| EvidenceMerge.LatestWins | packages/payops_core/graph/nodes.py:469-473 | an item that arrives last under its id is the one kept |
| PlannerAgent.PlanQuestion | packages/payops_core/agents/planner.py:72-175 | the branches that append tasks give the plan the lemmas are about |
| PlannerAgent.PlanIsWellFormed | packages/payops_core/agents/planner.py:72-175 | a plan is never empty and queues a merchant's score only when it names the merchant |
| PlannerFacts.PlanAnswersTheQuestion | packages/payops_core/agents/planner.py:72-175 | a plan has exactly the kinds of task the words of the question call for, each once, all about the merchant it names or else the one given |
| SufficiencyAgent.EvaluateSufficiency | packages/payops_core/agents/sufficiency.py:26-67 | the loop's verdict is that of `Judge` |
| SufficiencyAgent.GapsAreTheMissingCategories | packages/payops_core/agents/sufficiency.py:43-67 | a gap is listed for exactly the planned tasks whose category is absent |
| SufficiencyAgent.SufficientIffAllPresent | packages/payops_core/agents/sufficiency.py:31-67 | sufficient exactly when a plan exists and each of its categories is present without error; otherwise a gap is named |
| IncidentRiskAgent.ProposeHypotheses | packages/payops_core/agents/incident.py:9-87 | appending branch by branch and then filling in the loop give the hypotheses the lemmas are about |
| IncidentRiskAgent.HypothesesAreGrounded | packages/payops_core/agents/incident.py:17-87 | there is a hypothesis, causes are distinct, every cited id is collected evidence, and one is cited if there is any |
| AgentFacts.CausesAreProposedForAReason | packages/payops_core/agents/incident.py:17-76 | each cause is proposed exactly when the evidence or a metric gives reason to, and the fallback exactly when no other is |
| AgentFacts.HypothesesCiteTheirSubject | packages/payops_core/agents/incident.py:17-87 | a hypothesis cites up to five items about its own cause, and the first three of the bundle exactly when no item is about it |
| VerifierAgent.CheckHypothesis | packages/payops_core/agents/verifier.py:96-140 | collecting the issues one by one gives the claim of `Check` |
| VerifierAgent.CheckFacts | packages/payops_core/agents/verifier.py:96-140 | which ids a claim cites, and how support excludes missing, contradictory and unsupported, while weak implies support |
| AgentFacts.ClaimsFollowTheEvidence | packages/payops_core/agents/verifier.py:96-140 | a claim is supported exactly when what it cites was collected, no opposite code speaks against it, and it shares a code or a telling word with the cited texts; weak exactly when that is one word or little confidence |
| AgentFacts.OnlyObservedCausesAreCritical | packages/payops_core/agents/verifier.py:131-132 | over proposing and verifying: a claim is critical exactly when it leads and names a timeout, an integrity result or a webhook delay |
| VerifierAgent.ClaimsMirrorHypotheses | packages/payops_core/agents/verifier.py:79-94 | claims repeat the hypotheses' causes in order and cite only evidence that is there |
| VerifierAgent.GapsOnlyForTheLeadingClaim | packages/payops_core/agents/verifier.py:88-94 | at most one gap, and one exactly when a critical claim is unsupported |
| AgentFacts.GapsAskForTheCause | packages/payops_core/agents/verifier.py:172-184 | a gap for exactly the unsupported critical claims, asking for the cause itself from the tool its wording points to |
| AgentFacts.StatusIs | packages/payops_core/agents/verifier.py:187-198 | the status is supported only if every claim is and none weakly, and one contradicted claim decides it |
| WriterAgent.Write | packages/payops_core/agents/writer.py:42-101 | lowering the verdict and the confidence in turn gives the report the lemmas are about |
| AgentFacts.CauseIsTheFirstSupported | packages/payops_core/agents/writer.py:104-144 | the cause is that of the first supported claim, citing what that claim cites, and the fallback when no claim is supported |
| AgentFacts.ReportShowsFairly | packages/payops_core/agents/writer.py:42-101 | the next two hypotheses, the greatest confidence its cause, evidence and weakest claim allow, and a severity that only sufficient evidence raises |
| CriticAgent.Review | packages/payops_core/agents/critic.py:15-53 | extending the list of issues gives the critique the lemmas are about |
| CriticAgent.ApprovedIff | packages/payops_core/agents/critic.py:15-53 | a draft is approved exactly when it has a summary and no coverage, unsupported-claim or consistency issue |
| CriticAgent.DraftIsApproved | packages/payops_core/agents/critic.py:42-113 | the writer's draft from claims that mirror distinct hypotheses is always approved |
| CriticAgent.CauseIsGrounded | packages/payops_core/agents/writer.py:104-144 | the likely cause cites only ids the report lists |
| CriticAgent.ChosenIsNotRejected | packages/payops_core/agents/writer.py:126-144 | with distinct causes the cause chosen is not that of a rejected claim |
| Investigate.InvestigateNode | packages/payops_core/graph/nodes.py:78-150 | the node's loop over the batch, with both deadlines, ends in the state of `InvestigateStep` |
| Investigate.TryTask | packages/payops_core/graph/nodes.py:111-140 | one turn: a raised task is a failure with its event, a returned one merges and is completed |
| Investigate.RagTraces | packages/payops_core/graph/nodes.py:419-452 | a search per round, a rewrite between two rounds, one answer |
| Investigate.OneEventPerTask | packages/payops_core/graph/nodes.py:97-150 | exactly one run or failure event per task reached, in order |
| Investigate.ReturnedOrFailed | packages/payops_core/graph/nodes.py:97-150 | every task reached is completed or failed, never both |
| Investigate.InvestigateAccountsForTheBatch | packages/payops_core/graph/nodes.py:78-150 | completed, failed and leftover tasks partition the batch; an entry timeout discards it whole |
| Investigate.ErrorIffAllFailed | packages/payops_core/graph/nodes.py:78-150 | an error is recorded exactly when the batch ran to its end and every task failed |
| Investigate.EvidenceIdsSurvive | packages/payops_core/graph/nodes.py:78-150 | no collected evidence id is lost by a batch |
| Investigate.WhatReturnsIsCollected | packages/payops_core/graph/nodes.py:111-140 | after any number of tasks the metrics are the old ones followed by those of the tasks that returned, in order, and the evidence ids exactly the old ones and the returned ones |
| Investigate.InvestigateCollects | packages/payops_core/graph/nodes.py:78-150 | the node passes all of it on up to the deadline, and counts one round |
| GraphInvariant.InitialInv | packages/payops_core/graph/build.py:48-81 | the initial state satisfies the invariant and has 6N + 2 nodes ahead |
| GraphInvariant.StepKeeps | packages/payops_core/graph/build.py:84-127 | every node and every edge keeps the invariant and lowers the number of nodes left |
| GraphInvariant.PlannerKeeps | packages/payops_core/graph/nodes.py:30-75 | planning keeps the invariant and leaves work to do |
| GraphInvariant.InvestigateKeeps | packages/payops_core/graph/nodes.py:78-150 | investigating keeps it, whatever tasks and deadlines do |
| GraphInvariant.SufficiencyKeeps | packages/payops_core/graph/nodes.py:168-183 | whatever the verdict and the route, judging keeps the invariant; which route is taken is the subject of `GraphPersistence` |
| GraphInvariant.RefineKeeps | packages/payops_core/graph/nodes.py:186-215 | refining turns the queued gaps into at least one task |
| GraphInvariant.IncidentKeeps | packages/payops_core/graph/nodes.py:218-234 | proposing keeps it |
| GraphInvariant.VerifierKeeps | packages/payops_core/graph/nodes.py:237-255 | verifying and routing keep it |
| GraphInvariant.WriterKeeps | packages/payops_core/graph/nodes.py:279-313 | writing keeps it |
| GraphInvariant.CriticKeeps | packages/payops_core/graph/nodes.py:258-276 | reviewing keeps it: the draft is approved |
| GraphRuns.EveryRunEnds | packages/payops_core/graph/nodes.py:316-345 | with N = max(1, max_iterations), every run is over within 6N + 2 nodes, with a report and at least one and at most N investigations |
| GraphPersistence.GivesUpOnlyWhenOutOfRounds | packages/payops_core/graph/nodes.py:316-338 | a finished run that neither timed out nor failed and still has insufficient evidence has made all N investigations |
| GraphPersistence.RefinesOnlyWhenNeeded | packages/payops_core/graph/nodes.py:316-338 | a run refines only while a planned category is absent or a critical claim about its evidence is unsupported |
| GraphPersistence.RefineRetriesWhatIsMissing | packages/payops_core/graph/nodes.py:186-215 | in every run refining queues a task for each absent category, in the words of the plan, and for each thing the verifier asked for, and no other |
| GraphPersistence.ReportsTheFirstSupported | packages/payops_core/graph/nodes.py:279-313 | the report of every finished run names the first supported claim, with the greatest confidence it may show |
| GraphRuns.CriticApprovesTheFirstDraft | packages/payops_core/graph/nodes.py:237-345 | the writer writes once and the critic never rejects; keep-pending and skip never happen |
| GraphRuns.TasksAreThereWhenNeeded | packages/payops_core/graph/nodes.py:186-215 | investigate is entered with tasks; refine is entered with none and leaves some; merchant tasks have their merchant |
| GraphRuns.SufficientMeansSufficient | packages/payops_core/graph/nodes.py:168-345 | a final report is sufficient if and only if no timeout, no error, every planned category is present and no critical claim about that very evidence is unsupported |
| GraphRuns.CitationsResolve | packages/payops_core/agents/writer.py:42-56 | every id cited by the cause or an alternative is listed in the report, each id once; without sufficiency confidence is at most 0.3 |
| GraphRuns.SufficientCauseIsSupported | packages/payops_core/agents/writer.py:104-144 | a sufficient report names a supported claim's cause, or the fallback when nothing was supported |
| GraphRuns.EvidenceAccumulates | packages/payops_core/graph/nodes.py:469-473 | an evidence id collected at any point of a run is there ever after |
| GraphBound.TheBoundIsMet | packages/payops_core/graph/build.py:84-127 | for every request some texts and tasks make the run end with node 6N + 2 and not before |
| LedgerTransfer.SeedLedgerAccounts | packages/payops_core/ledger/accounts.py:22-55 | the loop opens exactly the missing accounts, as `Seeded`; that they can take part in transfers is stated by `LedgerRuns.ReachableTransferCommitsIff` |
| LedgerTransfer.TryTransfer | packages/payops_core/ledger/transfer.py:50-115 | the guarded steps: which exception, after which operations, that both before-balances are zero exactly when the checks refused, and that only the commit reaches the committed state |
| LedgerTransfer.PersistRollback | packages/payops_core/ledger/transfer.py:302-338 | one rolled-back row and two audit rows are committed |
| LedgerTransfer.RunLedgerTransfer | packages/payops_core/ledger/transfer.py:28-178 | books and result are those of `Outcome`, for every request, fail point and answer of the database |
| LedgerRuns.AssertAfterNeverFires | packages/payops_core/ledger/transfer.py:247-287 | the checks pass exactly when the accounts can pay, and then only injected failures remain |
| LedgerRuns.ReachableTransferCommitsIff | packages/payops_core/ledger/transfer.py:51-114 | on every reachable ledger a transfer commits if and only if its accounts exist and differ, 0 < amount <= balance, no failure is injected, its id is fresh and the database accepts it |
| LedgerRuns.AccountsStayOpen | packages/payops_core/ledger/accounts.py:22-55 | in every reachable ledger all accounts are active and of one currency |
| LedgerRuns.FirstSeedingOpensWallets | packages/payops_core/ledger/accounts.py:22-55 | seeding empty books opens a wallet for each merchant and the clearing account, and no other |
| LedgerRuns.FreshWalletPaysClearing | packages/payops_core/ledger/accounts.py:22-55 | a freshly seeded wallet can pay the clearing account up to its starting balance, and both balances then show it |
| LedgerRuns.AllOrNothing | packages/payops_core/ledger/transfer.py:51-174 | exactly when a transfer commits, in full; otherwise balances and journal as seeded and at most one rolled-back row with two audit rows |
| LedgerRuns.ReportedBalancesStand | packages/payops_core/ledger/transfer.py:116-174 | the balances reported before and after are the ones that stand, 0 for an account that is not there, whether or not the transfer got as far as reading them |
| LedgerRuns.ResultsTellTheStory | packages/payops_core/ledger/transfer.py:51-174 | a rolled-back result names the first thing that stood in the way, and lists exactly the steps that were applied |
| LedgerRuns.TransferConservesMoney | packages/payops_core/ledger/transfer.py:51-174 | no transfer changes the money in the books |
| LedgerRuns.SeedingIsIdempotent | packages/payops_core/ledger/accounts.py:22-55 | seeding leaves existing accounts alone, and twice is once |
| LedgerRuns.LedgerAlwaysReconciles | packages/payops_core/ledger/transfer.py:51-114 | in every reachable ledger balances equal openings replayed through the journal, versions count entries, transfers have their entries, and money is what was opened |
| LedgerAudit.TheTrailIsComplete | packages/payops_core/ledger/transfer.py:61-114 | in every reachable ledger a transfer row has exactly the audit events of its outcome, in order; its balances before and after differ by its amount or not at all; and no audit row is about anything else |
| LedgerConcurrency.CommitIsSequential | packages/payops_core/ledger/transfer.py:61-114 | a commit the contract allows is a whole sequential transfer on the books of that moment |
| LedgerConcurrency.InterleavingsAreSerial | packages/payops_core/ledger/isolation.py:3-23 | under the contract every interleaving, down to the two row reads, with failures and aborts, ends where the committed transfers run one at a time end |
| LedgerConcurrency.InterleavingsConserveMoney | packages/payops_core/ledger/isolation.py:3-23 | no interleaving creates or destroys money or makes a balance negative |
| LedgerConcurrency.LocksMakeCommitsSafe | packages/payops_core/ledger/isolation.py:14-19 | under locks a finished transfer is never refused for a conflict |
| LedgerConcurrency.OppositeTransfersBlock | packages/payops_core/ledger/transfer.py:253-257 | opposite transfers can each hold the row the other waits for, and aborting one frees the other |
| LedgerConcurrency.CommitIsSafeIffCurrent | packages/payops_core/ledger/isolation.py:26-31 | without a contract a finished transfer commits safely if and only if both rows are still in the version it read |
| LedgerConcurrency.UnguardedReconcilesIffCurrent | packages/payops_core/ledger/isolation.py:26-31 | without a contract the books reconcile at every moment of a run if and only if every commit that took effect was current, and then the run is serial |
| LedgerConcurrency.LostUpdateIffShared | packages/payops_core/ledger/isolation.py:26-31 | for any books and any two payable transfers that both read before either commits, the books survive if and only if they share no account |
| LedgerConcurrency.LostUpdateWithoutTheContract | packages/payops_core/ledger/isolation.py:26-31 | such a pair on a freshly seeded ledger: both commit and the books stop reconciling |
| RocAuc.ArgsortTwiceInverts | packages/payops_core/ml/evaluate.py:41-49 | sorting a sort gives the inverse permutation |
| RocAuc.RanksFollowScores | packages/payops_core/ml/evaluate.py:41-49 | ranks follow scores, however ties are broken |
| RocAuc.NumeratorCountsPairs | packages/payops_core/ml/evaluate.py:41-49 | the numerator counts the positives ranked above something that is not positive |
| RocAuc.AucBetweenPairCounts | packages/payops_core/ml/evaluate.py:41-49 | with ties the formula lies between pairs won and pairs won or tied |
| RocAuc.AucIsPairCounting | packages/payops_core/ml/evaluate.py:41-49 | without ties auc times both class sizes is the number of pairs won, and there is a score exactly when both classes occur |
| RocAuc.AucInUnitInterval | packages/payops_core/ml/evaluate.py:41-49 | the score is in [0, 1], before and after rounding |
| RocAuc.PairCountingIffNoStrayLabelBelow | packages/payops_core/ml/evaluate.py:41-49 | with any labels and ties, pairs are counted by rank if and only if no other label ranks below a positive |
| RocAuc.PairCountingIffNoStrayScoredBelow | packages/payops_core/ml/evaluate.py:41-49 | on labels and scores: with distinct scores pairs are counted if and only if no item with another label is scored below a positive |
| RocAuc.StrayLabelBreaksTheScore | packages/payops_core/ml/evaluate.py:41-49 | with labels 2, 1, 0 a score of 2 where one pair of one is won |
| RagQueries.FindUnused | packages/payops_core/rag/rewrite.py:73-80 | the scanning loop returns the first unused query |
| RagQueries.RewriteQuery | packages/payops_core/rag/rewrite.py:10-76 | scanning the seeds and then the candidates gives the query the lemmas are about |
| RagQueries.CollectCandidates | packages/payops_core/rag/rewrite.py:22-72 | the candidates are collected in the order of the branches |
| RagQueries.CollectFacetQueries | packages/payops_core/rag/rewrite.py:22-47 | the nested loops over missing facets and hints build the facet queries in order |
| RagQueries.FirstUnused | packages/payops_core/rag/rewrite.py:73-80 | an unused query of the list, and none exactly when all were used |
| RagQueries.RewrittenIsNew | packages/payops_core/rag/rewrite.py:19-80 | a rewritten query was never searched, and an unused seed comes before any facet rewrite |
| RagRuns.FacetQueriesAim | packages/payops_core/rag/rewrite.py:22-47 | the facet queries are the searches that aim at a missing facet, all of them and no other |
| RagRuns.LaterSearchesAim | packages/payops_core/rag/rewrite.py:19-76 | once the seeds are used, the next search aims at a facet missing just then, or drops the restriction or the wording, or asks the question as it came |
| RagStops.GivesUpWhenNothingIsLeft | packages/payops_core/rag/loop.py:58-139 | a run that stops without enough evidence though more searches are allowed has searched every seed, everything that aims at a missing facet, and the ways to broaden the last query |
| RagStops.SearchesSayWhy | packages/payops_core/rag/rewrite.py:10-76 | every search after the first says why it is made |
| RagLoop.ScoreHits | packages/payops_core/rag/loop.py:70-78 | relevant hits are kept in order and the rest counted |
| RagLoop.KeepBest | packages/payops_core/rag/loop.py:80-86 | the dictionary takes an item only if it is new or better |
| RagLoop.Search | packages/payops_core/rag/loop.py:68-114 | one iteration up to its round |
| RagLoop.SearchRounds | packages/payops_core/rag/loop.py:58-139 | the loop tries a chain of queries that stopped for a reason; its rounds, evidence and rejections are those of that chain |
| RagRuns.NoSearchIsRepeated | packages/payops_core/rag/loop.py:58-139 | no lower-cased query is issued twice with one document type |
| RagRuns.SeedsComeFirst | packages/payops_core/rag/rewrite.py:19-21 | the distinct seeds are searched first, in order |
| RagRuns.RoundsAreAccountedFor | packages/payops_core/rag/loop.py:65-139 | at most max(1, max_iterations) rounds, "rewrite" on all but the last and never on it, why the last one stopped, retrieved = kept + rejected |
| RagRuns.ItemsAreTheRelevantHits | packages/payops_core/rag/loop.py:70-86 | a round's items are its relevant hits, no more and no fewer |
| RagRuns.RoundsAreRanked | packages/payops_core/rag/loop.py:79-86 | a round lists its items best first |
| RagStops.ItemsAreExcerpts | packages/payops_core/models/schemas.py:56-66 | an item is an excerpt of a relevant hit of its search, at most 500 characters, with the score the relevance gave |
| RagStops.RejectedIsTheSum | packages/payops_core/rag/loop.py:58-139 | what a run rejected is the sum of what its rounds rejected |
| RagRuns.TheBestIsKept | packages/payops_core/rag/loop.py:80-86 | per id the best item that ever arrived is kept, and every id that arrived is there |
| RagRuns.KeptGrows | packages/payops_core/rag/loop.py:80-86 | ids keep their place, scores never fall, and an item gives way only to one that scores strictly more |
| RagAnswer.MissingOnlyShrinks | packages/payops_core/rag/loop.py:212-230 | if a chunk id fixes text and type, a facet covered once stays covered |
| RagAnswer.MissingIs | packages/payops_core/rag/loop.py:212-230 | a code is missing exactly when the upper-cased joined texts kept hold it nowhere; a topic by the type of the items kept, or else by the lower-cased texts |
| RagAnswer.AnItemCoversItsCodes | packages/payops_core/rag/loop.py:212-230 | a kept item whose own upper-cased text holds a code covers it |
| RagAnswer.SufficientIffCovered | packages/payops_core/rag/loop.py:212-243 | a round suffices exactly when enough is kept and no code or topic is uncovered; on texts and types, with `RagAnswer.MissingIs` |
| RagAnswer.FindConflict | packages/payops_core/rag/loop.py:246-258 | the nested loops find a conflict exactly when some listed pair is opposed in its order |
| RagAnswer.OnlyOneOrderHidesAConflict | packages/payops_core/rag/analysis.py:81-87 | every pair of places that disagrees is reported, but for GATEWAY_TIMEOUT ranked above WEBHOOK_TIMEOUT |
| RagAnswer.OrderIsIrrelevantIff | packages/payops_core/rag/loop.py:246-258 | every reordering gets the same verdict if and only if two places are opposed in both orders or no GATEWAY_TIMEOUT and WEBHOOK_TIMEOUT are in different places |
| RagAnswer.ConflictDependsOnOrder | packages/payops_core/rag/analysis.py:81-87 | the same two sources conflict in one order and not in the other |
| RagAnswer.RunAgenticRag | packages/payops_core/rag/loop.py:35-174 | the whole run: default seed, empty result, ranked items, citations, and exactly when it is sufficient |
| RagAnswer.ResultIsRanked | packages/payops_core/rag/loop.py:141-151 | the result lists exactly the evidence kept, best first |
| RagAnswer.ResultHoldsTheBest | packages/payops_core/rag/loop.py:141-151 | each item was found by a search, and nothing found beats the one listed under its id |
| Sorting.LargestFirstOrdered | packages/payops_core/rag/relevance.py:41-44 | the stable descending sort is ordered |
| AuthService.Service.IssueSession | apps/api/auth_service.py:84-104 | a new open session, and the user's activity stamped |
| AuthService.Service.Authenticate | apps/api/auth_service.py:107-129 | the login of the request history, with its refusals; `AuthPasswords.LoginIff` says which password it asks for |
| AuthService.Service.ResolveSession | apps/api/auth_service.py:132-150 | the answer in the order of the checks, and the throttled activity stamp |
| AuthService.Service.RevokeSession | apps/api/auth_service.py:153-160 | closes that session once |
| AuthService.Service.RevokeUserSessions | apps/api/auth_service.py:163-169 | the loop closes every open session of the user and no other |
| AuthService.Service.RequestPasswordReset | apps/api/auth_service.py:172-207 | a reset token only for a known active user |
| AuthService.Service.ResetPassword | apps/api/auth_service.py:210-230 | a fresh token changes the password, is used up and closes all sessions |
| AuthService.Service.ChangePassword | apps/api/auth_service.py:233-238 | the right current password changes it and closes all sessions |
| AuthService.Service.SuspendUser | apps/api/routers/admin.py:161-183 | suspends and closes all sessions, but never the last active administrator |
| AuthService.Service.ActivateUser | apps/api/routers/admin.py:186-205 | reactivates and opens no session |
| AuthService.Service.ChangeRole | apps/api/routers/admin.py:208-235 | changes the role, but never of the last active administrator |
| AuthRuns.ApplyKeepsInv | apps/api/auth_service.py:84-169 | an unrevoked session always belongs to an active user |
| AuthRuns.DeadTokensStayDead | apps/api/auth_service.py:132-169 | a token that fails to resolve never resolves again, and is answered with a refusal ever after |
| AuthRuns.ResolvesOnAnInterval | apps/api/auth_service.py:84-169 | the times at which a token resolves form one interval |
| AuthRuns.IssuingIsSafeIffActive | apps/api/auth_service.py:84-104 | issuing keeps the invariant exactly for active users, which the routes ensure |
| AuthRuns.SuspensionIsFinal | apps/api/routers/admin.py:161-205 | no session open at suspension works after reactivation |
| AuthRuns.ResetWorksOnce | apps/api/auth_service.py:210-230 | a reset token works once and every older session is dead for good |
| AuthRuns.PasswordChangeLeavesOneSession | apps/api/auth_service.py:233-238 | after a password change only the session just issued resolves |
| AuthRuns.AnAdminRemains | apps/api/auth_service.py:40-51 | an active administrator survives every run |
| AuthPasswords.TheLastSetIsStored | apps/api/auth_service.py:107-129 | in every run the hash stored for an address is that of the password last set for it by a signup, a reset or a change that took effect |
| AuthPasswords.LoginIff | apps/api/auth_service.py:107-129 | in every run a login opens a session if and only if its token is fresh, the password is the one last set and the user is active; else it changes nothing |
| AuthPasswords.ChangeIff | apps/api/auth_service.py:233-238 | in every run a change of password takes effect and opens a session if and only if its asker resolves and gives the password last set; else it changes nothing |
| AuthPasswords.SessionsLiveTheirLifetime | apps/api/auth_service.py:84-150 | in any run a session issued now resolves only within its lifetime; left alone, exactly that long |
| AuthPasswords.ResetsLiveTheirLifetime | apps/api/auth_service.py:172-230 | a reset token asked for by an active user works, left alone, exactly for its lifetime |
| AuthPasswords.LogoutIsFinal | apps/api/auth_service.py:153-160 | a token that was logged out never resolves again in any run |
| AuthPasswords.OnlyItsOwnerCloses | apps/api/auth_service.py:153-169 | a session that resolves goes on doing so through every request but its own logout, its user's suspension, reset or change of password, and the clock passing its end |
| AuthPasswords.VisitsAreNoted | apps/api/auth_service.py:132-150 | after a visit that resolves, the user is noted as active within the last 300 seconds, and within these a visit writes nothing |
| AuthPasswords.TheLastAdminIsKept | apps/api/routers/admin.py:161-235 | suspending and demoting are refused for exactly the administrator with no other active one beside |
| EvidenceStore.InvestigationStore.UpsertEvidence | apps/api/store.py:162-178 | one row written, with its exact owner and payload |
| EvidenceStore.InvestigationStore.PutRun | apps/api/store.py:43-68 | stores the run, keeping its creation time, and its items |
| EvidenceStore.InvestigationStore.IndexEvidence | apps/api/store.py:151-154 | writes items on nobody's behalf |
| EvidenceStore.InvestigationStore.DeleteRun | apps/api/store.py:98-107 | removes the run and exactly its rows |
| EvidenceStore.InvestigationStore.DeleteAllRuns | apps/api/store.py:109-118 | removes all runs and every row one of them owns |
| EvidenceStore.InvestigationStore.GetRun | apps/api/store.py:120-128 | the run with exactly the rows it owns |
| EvidenceStore.InvestigationStore.ListRuns | apps/api/store.py:78-90 | the batched listing shows what fetching shows, exactly unless the run's id is empty and it owns something |
| EvidenceStore.OwnersStayLive | apps/api/store.py:43-118 | after any operations an owner is a run that is there |
| EvidenceStore.IndexingRespectsOwners | apps/api/store.py:151-178 | indexing changes a row exactly when it is mentioned and no named run owns it, and never its owner |
| EvidenceStore.PutTakesOver | apps/api/store.py:162-178 | a stored run owns an item exactly when its id is not empty, or the row was new or already its own |
| EvidenceStore.TheLastToStoreOwns | apps/api/store.py:43-178 | in every history a row belongs to the last named run that stored it until that run is deleted, with the last payload any run stored |
| EvidenceStore.ARunShowsWhatItStoredLast | apps/api/store.py:120-128 | in every history fetching a named run shows exactly the items it was the last named run to store, each as last stored |
| EvidenceStore.ThereSinceStored | apps/api/store.py:43-118 | a run is there exactly when it was stored and not deleted since |
| EvidenceStore.CreationTimeIsKept | apps/api/store.py:43-68 | a run keeps the creation time it was first stored with, until it is deleted |
| EvidenceStore.TheLastDetailIsShown | apps/api/store.py:43-68 | everything else a run row shows is what was stored last |
| EvidenceStore.AnUnnamedRunDoesNotTakeOver | apps/api/store.py:174-178 | a run with an empty id can store last and not own the row |
| Chunking.Window | packages/payops_core/rag/chunking.py:49-60 | the loop ends for every size and overlap |
| Chunking.PartsLieAtStrides | packages/payops_core/rag/chunking.py:49-60 | closed form: least number of parts, each the stretch at k strides, none longer than the target |
| Chunking.NothingIsLost | packages/payops_core/rag/chunking.py:49-60 | if the text is empty, or the size is positive and the overlap is not negative or one part is enough, the parts without their repeated prefixes join to the text |
| Chunking.SomethingIsLost | packages/payops_core/rag/chunking.py:49-60 | in every other case, for every size and overlap, a named character of the text does not matter to the parts |
| Features.LoadFeatureRows | packages/payops_core/ml/features.py:41-79 | the running dictionary gives each row the merchant's history strictly before it |
| Features.FeaturesDoNotLeak | packages/payops_core/ml/features.py:47-79 | a payment's own outcome and everything later change no feature of it or of earlier rows |
| Features.LaterPaymentsChangeNoRow | packages/payops_core/ml/features.py:47-79 | appending payments changes no earlier row |
| Features.HistoryCounts | packages/payops_core/ml/features.py:50-53 | the history has one entry for each earlier payment of the merchant, and counts those with the status "failed" |
| Features.FailRateIsTheShareOfFailures | packages/payops_core/ml/features.py:47-103 | the fail-rate feature is the share of earlier failures, 0 without any payment, in [0, 1], so its clamp does nothing |
| Features.LabelsAreOutcomes | packages/payops_core/ml/features.py:58-79 | the label is the status "failed", and the latency the time from creation to capture of what succeeded, never negative |
| Features.HistoryAmounts | packages/payops_core/ml/features.py:47-57 | the running amount is the sum of the merchant's earlier amounts |
| Features.FeaturesAre | packages/payops_core/ml/features.py:82-103 | the other features: own amount and time, at most one method flag, number and mean amount of earlier payments |
| Webhooks.Group | packages/payops_core/tools/webhook_analysis.py:222-226 | the dictionary loop gives the groups in order of first event |
| Webhooks.FindRetries | packages/payops_core/tools/webhook_analysis.py:96-120 | the loop reports the retry groups |
| Webhooks.FindDuplicateEvents | packages/payops_core/tools/webhook_analysis.py:123-155 | the loops report each list of ids once |
| Webhooks.EachGroupIsReportedOnce | packages/payops_core/tools/webhook_analysis.py:132-155 | no two findings list the same events, and a list is reported exactly when it is that of a group of two or more |
| WebhookFindings.DuplicatesShareWhatTheyShould | packages/payops_core/tools/webhook_analysis.py:123-155 | a finding lists two or more events, all of its payment and type, that share one attempt or one non-empty idempotency key |
| WebhookFindings.SharingIsReported | packages/payops_core/tools/webhook_analysis.py:123-155 | two events of one payment and type with one attempt, or one non-empty key, are in a finding together |
| WebhookFindings.OnlySharersAreReported | packages/payops_core/tools/webhook_analysis.py:123-155 | whatever is reported contains two events of one payment and type that share an attempt or a non-empty key |
| WebhookFindings.RetriesAre | packages/payops_core/tools/webhook_analysis.py:96-120 | a retry is reported for exactly the payments and types with two events or more and no two of one attempt; it is about all of them |
| WebhookFindings.RetryOrDuplicate | packages/payops_core/tools/webhook_analysis.py:96-155 | for a payment and type with two events or more, either a retry is reported or two of its events share an attempt and are reported together: never both, never neither |
| Webhooks.RetriesAreTheRetryGroups | packages/payops_core/tools/webhook_analysis.py:96-120 | the retries reported are exactly those of the retry groups |
| Webhooks.RetriesAreInOrder | packages/payops_core/tools/webhook_analysis.py:105-118 | a retry lists all its events by attempt |
| HealthScore.ComputeHealthScore | packages/payops_core/tools/merchant_health.py:56-117 | the accumulating loop gives the score and penalties the lemmas are about |
| HealthScore.HalfUpRoundsToCents | packages/payops_core/tools/merchant_health.py:74-98 | the assumptions on rounding are met by rounding half up |
| HealthScore.ShownPointsAddUp | packages/payops_core/tools/merchant_health.py:70-99 | the shown score and penalties add up to 100 within 0.04, and exactly without payments |
| HealthScore.ScoreInRange | packages/payops_core/tools/merchant_health.py:98-117 | the score is in [0, 100] |
| HealthScore.BetterFactorsScoreNoLess | packages/payops_core/tools/merchant_health.py:183-195 | improving factors never lowers the score |
| HealthScore.BandsFollowScores | packages/payops_core/tools/merchant_health.py:206-211 | the band turns at 80 and 50 points, and improving factors never leads into a worse one |
| HealthScore.CriticalFactorsCostTheirWeight | packages/payops_core/tools/merchant_health.py:56-117 | with every factor at one end of its scale the score is 100 less the weights of the critical ones: 100 if all are healthy, 0 if all are critical |
| HealthScore.LosesInProportion | packages/payops_core/tools/merchant_health.py:183-195 | between its bounds a factor loses points in proportion |
| HealthScore.PenalisedIffUnhealthy | packages/payops_core/tools/merchant_health.py:82-98 | a penalty is shown for exactly the factors outside their healthy range |

## Left out

- Text tests in the agents (tokens, stems, substrings, regular expressions, wording remarks and their order) are arbitrary functions; what is proved holds for all of them.
- Report parts without a bearing on the results: findings, recommended actions, time window, incident id, labels, retrieval summary and the trace event for a translated query.
- Parts of a task that no decision reads: rationale, method id, evidence category; and the bodies of the tools behind `_run_task`.
- GraphRuns.EveryRunEnds: counts nodes of the graph; `packages/payops_core/graph/build.py` invokes it without a recursion limit of its own while a request may allow eight iterations, so the framework's own step limit is outside the model.
- LangGraph, SQLAlchemy and the databases: the graph is an explicit step function, tables are maps, and a commit is atomic.
- LedgerConcurrency.InterleavingsAreSerial: assumes the isolation contract; `connect_for_transfer` issues no lock on SQLite, so the contract is not proved of it.
- Entry ids, currency and isolation columns of transfer and journal rows, audit texts, clocks, and the read-only listings of the ledger.
- Password hashing and random tokens: a hash is injective and a request whose fresh token clashes changes nothing.
- Cookies, e-mail, audit rows, password policy, the address check and the bootstrap administrator.
- RagLoop.Search: relevance scoring, snippet metadata, latency, logging and the grounded excerpt are not modelled; an item without a score does not occur.
- RagQueries.Key: lower-casing maps one character at a time, so context-dependent mappings such as the final sigma are not modelled.
- RagAnswer.FindConflict: the primary code of an item is an arbitrary function of it, and the note naming the two codes is not modelled.
- EvidenceStore.InvestigationStore.ListRuns: which runs are listed, their order and the limit are the caller's; the order of evidence within a run is not modelled.
- Webhooks.FindDuplicateEvents: a finding's ids are a multiset, since only their sorted list is kept; the other fields of a finding and the missing, delayed, failed and mismatched findings are not modelled.
- Chunking.Window: splitting a document into sections and naming chunks is not modelled.
- Features.LoadFeatureRows: the order of the payments is the query's; `log1p` and lower-casing are arbitrary functions.
- Floating point: scores, rates and points are real numbers, and rounding is any order-keeping map with the stated error.
- HealthScore.ComputeHealthScore: explanations, recommendations, bands of single factors and the metrics the factors come from are not modelled.
- Other metrics in `packages/payops_core/ml/evaluate.py`, model fitting, the train/test split and the model caches, whose key does not identify its rows.
- HTTP routing, configuration, migrations, the web client, the evaluation harness, seed data and the synthetic generator.
