# Verified cores of the evaluation harness and the batch runner

This project models the parts of the repository that decide outcomes: which workflow checks pass, what a concurrent lane reports, which sessions are called orphaned, how token snapshots are stored and compared, what a baseline comparison concludes, and what a batch of steps yields. Each part is written in the form the source has (classes with mutable state, loops, or plain functions), and the properties are proved about the specification functions the code is tied to.

`dafny verify dfyconfig.toml` checks everything.

| file | what it holds |
|---|---|
| `Workflow.dfy`, `WorkflowTheory.dfy`, `WorkflowMessages.dfy`, `WorkflowBuilder.dfy` | the cached, cycle-tolerant dependency resolver against a least fixed point; what its results and messages say; the builders that feed it |
| `Scheduler.dfy`, `CaseProgress.dfy`, `Lane.dfy`, `LaneTheorems.dfy` | the worker pool, the case tracker, and both together with the lane hooks as a transition system with a step at every `await` |
| `OrphanedSessions.dfy`, `OrphanMatcher.dfy`, `OrphanedOrder.dfy`, `OrphanedCount.dfy`, `OrphanedLines.dfy` | the session matcher, as functions and as the class that mutates its lists and maps; exactly when the order of the lines matters, for the ids reported and for the number of findings; which line each finding points at |
| `TokenAggregation.dfy`, `TokenMeaning.dfy`, `SnapshotStore.dfy`, `SnapshotCompare.dfy`, `SnapshotRun.dfy`, `SnapshotMeaning.dfy` | token totals, the snapshot file merge, the comparison, and update followed by check; what each row, case and entry says |
| `Selection.dfy`, `WorkItems.dfy`, `Invocations.dfy`, `SelectionMeaning.dfy`, `RunCheck.dfy`, `RunReport.dfy` | which cases a run selects, which work items its lanes enumerate and how many it announces, that every record of a run is current in its own snapshot check, and what the merged report then says |
| `Statistics.dfy`, `StatisticsMirror.dfy`, `StatisticsMeaning.dfy`, `Comparison.dfy`, `ComparisonTheorems.dfy`, `ComparisonMeaning.dfy` | bootstrap, percentile and Wilson arithmetic over reals by their defining equations, and the verdicts built on them; what each line of a comparison says |
| `Batch.dfy`, `BatchMeaning.dfy` | the step runner and the result rebuilt from a prefix of its records; what each record says about the driver's answers |
| `RegexLiteral.dfy`, `LineNumbers.dfy` | the regex-literal scanner against its printer and against the grammar; offset to line number |
| `Collections.dfy`, `Sorting.dfy`, `Sublists.dfy` | shared value types and sequence facts; filtering stated by positions |

Conventions. A thrown invariant is an error value in the result. Inputs from outside are parameters: which patterns compile and match are predicates (`Scan`), the driver of a batch and the clock of a lane are arbitrary, JSON encoding is any pair of functions where decoding inverts encoding and no line holds a newline (`Faithful`), `localeCompare` is any total order, the random numbers are any stream in [0, 1), and the square root is any function with the defining property.

Two properties do not hold for every transcript of session lines; for each the exact condition is proved, which can be read off the lines.

- That the named findings are exactly the sessions created and never destroyed. An anonymous destroy can take the cleanup of a session that nobody destroyed (`OrphanedOrder.AnonymousDestroyHides`). The findings are exact in every order of a transcript's lines if and only if it has no anonymous destroy or every created session is also destroyed by name (`OrphanedOrder.ExactInEveryOrderIff`); anonymous creations are harmless to named findings.
- That the number of findings does not depend on the order of the lines. Both kinds of anonymous lines can break it: an anonymous destroy cleans only what was created before it, and a named creation adopts only an anonymous one before it. Let A be the number of anonymous creations. The number of findings is the same in every order if and only if either A is at most the number of ids destroyed and never created, and there is no anonymous destroy or every created id is also destroyed by name; or no line names a created id and no destroy is anonymous (`OrphanedCount.FindingsInEveryOrderIff`).

In the lane model the hook's synchronous segment is cut where the hook has set the shared timestamp and is about to call the tracker. A token marks the worker that runs; only an `await` releases it. The tracker then reads the shared variable, and that it finds the caller's own reading there is an invariant (`Lane.ClockStaysHeld`, `LaneTheorems.TrackerReadsOwnTime`).

The operations are tied to functions, and the functions in turn to statements that do not use them: a result, record, row or finding is described by the fields of the inputs it comes from, counts are sizes of sets of positions, filtered lists are given by the positions they keep, quotients by the products they solve.

Where the prose documentation of the evaluation harness and its code differ, the code was followed.

## Model

| member | source | states |
|---|---|---|
| `Workflow.Resolver.Resolve` | evals/lib/scoring.ts:676-747 | The descent with a shared cache and an active set returns, for an id not under way, exactly the status given by the least fixed point of "passes"; a back edge returns the uncached cyclic failure, and then the id really does not pass; cached statuses stay, the active set is restored, and it terminates on every graph |
| `Workflow.Resolver.ResolveDependencies` | evals/lib/scoring.ts:700-725 | The failure parts for the dependencies are those of their meanings, whatever the cache holds and whether or not a back edge is met |
| `Workflow.PassesUnfolds` | evals/lib/scoring.ts:676-747 | A check passes exactly if it exists, is locally fine and all its dependencies pass: the least fixed point is a fixed point |
| `Workflow.CycleNeverPasses` | evals/lib/scoring.ts:692-698 | A check that reaches itself never passes |
| `Workflow.CheckWorkflow` | evals/lib/scoring.ts:168-236 | Succeeds exactly on lists with distinct ids whose patterns are all non-empty and compile, otherwise stops at the first offender with its error; on success every result is the check's own meaning, of which the six rows below say what it reads |
| `WorkflowMessages.ResultReads` | evals/lib/scoring.ts:700-747 | A result has the check's id; it has passed, without message, exactly if no dependency is missing or failing, no required pattern is missing and no forbidden one is violated; otherwise its message is the dependency parts, then one part with all missing patterns, then one with all violated ones, in the order of the check |
| `WorkflowMessages.UnmatchedListed` | evals/lib/scoring.ts:720-722 | The missing patterns are exactly the required ones the text does not match, in order and as often as they occur |
| `WorkflowMessages.ViolatedListed` | evals/lib/scoring.ts:729-731 | Likewise the violated ones among the forbidden |
| `WorkflowMessages.JoinAppends` | evals/lib/scoring.ts:723-741 | Joining puts one separator between neighbours and nothing else |
| `WorkflowMessages.MatchesRead` | evals/lib/scoring.ts:112-163 | One match per required and per forbidden pattern, in order, saying what the text says |
| `WorkflowMessages.StopReads` | evals/lib/scoring.ts:173-200 | The error names the check, and is a repeated id, or the first pattern, required ones first, that is empty or does not compile |
| `Workflow.EvaluateAll` | evals/lib/scoring.ts:173-200 | The first pass stops at the first duplicate id or unusable pattern, and otherwise holds one evaluation per check and nothing else |
| `Workflow.FirstBadIsFirst` | evals/lib/scoring.ts:91-163 | The reported pattern is the first that is empty or does not compile, and there is none exactly if all can be used |
| `WorkflowTheory.PassesIffSoundBelow` | evals/lib/scoring.ts:676-747 | A check passes iff everything reachable from it exists, is locally fine and lies on no cycle |
| `WorkflowTheory.OrderIndependent` | evals/lib/scoring.ts:202-231 | Permuting the checks permutes the results and changes none of them, messages included |
| `WorkflowTheory.CyclicMessageNeverReported` | evals/lib/scoring.ts:692-698 | No reported message is the cyclic-dependency text, and a message is present exactly on failure |
| `WorkflowTheory.ChainPassesPrefix` | evals/authoring/execution.ts:219-240 | In a default chain the passed steps are exactly those before the first locally failing one |
| `WorkflowBuilder.FindContradiction` | evals/authoring/workflow.ts:37-43 | Finds the first required pattern that is also forbidden, and nothing exactly if there is none |
| `WorkflowBuilder.AppendUniqueValues` | evals/authoring/workflow.ts:45-51 | Keeps what was there and appends each new value once, in the order of first occurrence |
| `WorkflowBuilder.Builder.Build` | evals/authoring/workflow.ts:119-167 | Fails exactly if some entry contradicts itself; otherwise yields one check per entry in order, with the id, the required and forbidden patterns and the dependencies its step was told, ids distinct |
| `WorkflowBuilder.ExecutionBuilder.AppendCheck` | evals/authoring/execution.ts:219-240 | Fails exactly on a known id or a pattern both required and forbidden, saying which; otherwise appends one check with the id, the one required pattern, the forbidden one if given, and the dependencies given, by default the last entry alone; it keeps an all-default history all-default |
| `WorkflowBuilder.ExecutionBuilder.BuildChain` | evals/authoring/workflow.ts:119-167 | On a builder used through the execution builder with default dependencies only, the build cannot fail and yields a default chain with distinct ids |
| `WorkflowBuilder.BuiltListsHaveNoDuplicate` | evals/authoring/workflow.ts:68-113 | On a built list `checkWorkflow` can only stop for an unusable pattern, one that is empty or does not compile |
| `Scheduler.ClaimedExactlyBelowNext` | evals/lib/scheduler.ts:53-66 | In every interleaving the claimed indices are exactly those below `nextIndex`, each claimed once by one worker |
| `Scheduler.BoundedConcurrency` | evals/lib/scheduler.ts:44-107 | At most min(concurrency, n) items are in flight |
| `Scheduler.FailureAccounting` | evals/lib/scheduler.ts:68-95 | Under arbitrary hook failures: at most one execution per index; its slot holds the late failure if there was one and what the executor gave otherwise; the finish hook is called a second time exactly when the executor fulfilled and a failure followed |
| `Scheduler.CompletesEverySlot` | evals/lib/scheduler.ts:97-107 | Without a rejection slot i holds item i's own final settlement, late failure included, so the missing-settlement fault cannot occur |
| `Scheduler.RejectsWithTheFirst` | evals/lib/scheduler.ts:68-100 | The pool rejects with what the first action that crashed a worker threw; an executor's own failure never rejects it |
| `Scheduler.NoDeadlock` | evals/lib/scheduler.ts:53-100 | While a worker is unfinished some step is enabled |
| `Scheduler.EveryRunIsBounded` | evals/lib/scheduler.ts:53-100 | Every run has at most as many steps as a measure of the input allows, hook failures included |
| `CaseProgress.ComputePlannedCases` | evals/reporters/runtime.ts:196-223 | One entry per distinct identity with its number of items; fails exactly on an empty case id or condition |
| `CaseProgress.EachTrialCountedOnce` | evals/reporters/runtime.ts:303-369 | Over the whole life of a case, whatever its trials settled and whatever the clock said at each, every trial counts in exactly one of passed, failed and errored, which add up to the completed trials, and every reported score in the score sum; other cases stay; the case is finished by its last planned trial and none before |
| `CaseProgress.ReportedByTheLast` | evals/reporters/runtime.ts:303-369 | Only the last planned trial is answered with the report: counts of all, mean of the reported scores, the case's start, that trial's own reading and the duration; a reading from before the start, and every further trial, is refused |
| `CaseProgress.CaseProgressTracker.OnTrialStart` | evals/reporters/runtime.ts:278-301 | The mutable tracker changes its state and replies as the value function says |
| `CaseProgress.CaseProgressTracker.OnTrialFinish` | evals/reporters/runtime.ts:303-369 | Likewise for finishes |
| `Lane.StepKeepsInv` | evals/execution/runner.ts:1508-1646 | Every move of a lane (pool step, hook segment, tracker call) keeps the links between pool, hooks, shared timestamp, tracker state and trace |
| `Lane.ClockStaysHeld` | evals/execution/runner.ts:1508-1513 | Through every move, exactly the running worker is about to call the tracker, and then the shared timestamp is its own reading, whatever others wrote or cleared |
| `LaneTheorems.LaneRefinesPool` | evals/execution/runner.ts:1560-1646 | Forgetting hooks and tracker, a lane run is a run of the worker pool, so the pool's theorems apply |
| `LaneTheorems.NoTrackerFault` | evals/reporters/runtime.ts:278-369 | In every interleaving no tracker invariant fires, and each case starts at most once and finishes at most as often as it started |
| `LaneTheorems.CaseFinishIsLast` | evals/execution/runner.ts:1590-1646 | A `caseFinish` is dispatched only after all `trialFinish` deliveries of its case; passed + failed + errored = planned trials and each is the recount over the settlements; the mean score is the mean of the scored settlements; the time it carries is the emitting trial's own reading |
| `LaneTheorems.TrackerReadsOwnTime` | evals/execution/runner.ts:1508-1646 | In every interleaving the tracker, which reads the shared timestamp, reads the calling trial's own |
| `LaneTheorems.EventOrder` | evals/execution/runner.ts:1560-1646 | `caseStart` carries the emitting trial's own start time; trial events follow their case's start and each other |
| `LaneTheorems.EveryCaseReportedOnce` | evals/reporters/runtime.ts:278-369 | When all workers stop without rejection, every planned case was started once and finished once and every trial's finish was delivered |
| `LaneTheorems.LaneProgress` | evals/execution/runner.ts:1508-1646 | A lane with an unfinished worker can always move |
| `LaneTheorems.EveryLaneRunIsBounded` | evals/execution/runner.ts:1508-1646 | and every run of a lane ends: at most nine moves an item and one more a worker |
| `OrphanedSessions.StepInv` | evals/lib/antiPatterns.ts:927-1013 | Every line keeps: ids map one-to-one to named records, pending cleanups are disjoint from created ids, the anonymous list is exactly the unnamed records in increasing order |
| `OrphanedSessions.DeadBranches` | evals/lib/antiPatterns.ts:954-958 | Two tests of the code can never succeed, in any state between lines or inside one |
| `OrphanedSessions.NamedOrphansExact` | evals/lib/antiPatterns.ts:840-925 | If no destroy is anonymous, the named findings are exactly the ids created and never destroyed |
| `OrphanedSessions.OneFindingPerOrphan` | evals/lib/antiPatterns.ts:906-925 | If every line names its sessions, all findings are named, one for each such id |
| `OrphanedSessions.NamedOrderIrrelevant` | evals/lib/antiPatterns.ts:840-925 | If no destroy is anonymous, any reordering of the lines reports the same ids |
| `OrphanedOrder.ExactInEveryOrderIff` | evals/lib/antiPatterns.ts:840-1046 | The named findings are exact in every order of the lines iff no destroy is anonymous or every created id is also destroyed by name |
| `OrphanedOrder.AnonymousDestroyHides` | evals/lib/antiPatterns.ts:1009-1012 | The smallest transcript in which they are not |
| `OrphanedCount.FindingsInEveryOrderIff` | evals/lib/antiPatterns.ts:840-1046 | Every order of the lines has the same number of findings iff (anonymous creations are at most the ids destroyed and never created, and no destroy is anonymous or every created id is destroyed by name) or (no line names a created id and no destroy is anonymous) |
| `OrphanedSessions.NamedCleanupAlwaysCounts` | evals/lib/antiPatterns.ts:985-1013 | In any transcript a session created and destroyed by name, in either order, is never reported |
| `OrphanedSessions.CleanupsBounded` | evals/lib/antiPatterns.ts:985-1046 | Cleaned records never exceed distinct destroyed ids plus anonymous destroys |
| `OrphanedSessions.AnonymousOrderMatters` | evals/lib/antiPatterns.ts:1009-1012 | The smallest transcript whose number of findings depends on the order: an anonymous destroy cleans an earlier creation and not a later one |
| `OrphanedLines.FindingsPointAtLines` | evals/lib/antiPatterns.ts:906-983 | Findings come in the order of the transcript, and each carries number and text of its line: an anonymous creation, or the first line that names its session as created |
| `OrphanMatcher.Matcher.RegisterSession` | evals/lib/antiPatterns.ts:941-982 | The in-place update is the value function, invariant kept |
| `OrphanMatcher.Matcher.RegisterCreation` | evals/lib/antiPatterns.ts:927-983 | The loop over the named ids, or the anonymous record, likewise |
| `OrphanMatcher.Matcher.MarkCleanup` | evals/lib/antiPatterns.ts:985-1013 | Named cleanups, or the earliest uncleaned record, likewise |
| `OrphanMatcher.Matcher.ReconcileAnonymous` | evals/lib/antiPatterns.ts:1015-1046 | The final pairing, with its early exit, likewise |
| `OrphanMatcher.DetectOrphanedSessions` | evals/lib/antiPatterns.ts:840-925 | The run over a transcript returns the orphans the theorems speak of |
| `TokenAggregation.TokensConserved` | evals/lib/tokenAggregation.ts:101-212 | Each field's lane sum = case sum = grand total; cached tokens appear in the total iff in every row |
| `TokenAggregation.ReportPermutes` | evals/lib/tokenAggregation.ts:101-212 | The report does not depend on the order of the records |
| `TokenAggregation.ReducedRegroups` | evals/run.ts:1416-1472 | The reduced snapshot records have distinct keys and sum up to the per-case rows |
| `TokenAggregation.AggregateTokenRecords` | evals/lib/tokenAggregation.ts:101-212 | The accumulating loop computes that report, or returns the first error: the lane order is read first, then the records in order |
| `TokenMeaning.GrandTotalReads` | evals/lib/tokenAggregation.ts:118-150 | The grand total holds the sums of input, output and total tokens over all records and their number; cached tokens exactly if every record has them, then their sum |
| `TokenMeaning.LanesRead` | evals/lib/tokenAggregation.ts:171-181 | One row per lane of the order that occurs, in that order, with the same sums over the records of the lane |
| `TokenMeaning.CasesRead` | evals/lib/tokenAggregation.ts:183-212 | One row per lane, case and condition that occur, in order, likewise |
| `TokenMeaning.ReducedReads` | evals/run.ts:1416-1472 | One reduced record per provider, model, case, condition and fingerprint that occur, in order, likewise |
| `TokenAggregation.FirstErrorIff` | evals/lib/tokenAggregation.ts:111-145 | There is a first error exactly if a lane is empty or repeated, or a record has no case id or a lane outside the order |
| `TokenMeaning.FirstErrorReads` | evals/lib/tokenAggregation.ts:111-145 | The error names the first lane that is empty or repeated, or else the first record without case id or of an unknown lane |
| `TokenAggregation.ReduceSnapshotTokenRecords` | evals/run.ts:1416-1472 | The reducing loop computes the reduced records |
| `SnapshotStore.MergeEntries` | evals/snapshots/store.ts:233-287 | The deleting and pushing loops compute the merge; fails exactly on a foreign provider or model or a repeated incoming key |
| `SnapshotStore.MergeRefinesOverride` | evals/snapshots/store.ts:233-287 | The merge is map override: keys unique, stored order kept, new keys in input order, first stored occurrence kept unless replaced |
| `SnapshotStore.MergeIdempotent` | evals/snapshots/store.ts:233-287 | Merging the same entries again changes nothing |
| `SnapshotStore.LoadSnapshotFile` | evals/snapshots/store.ts:135-215 | The line loop yields the readable admitted entries and one numbered diagnostic per other line |
| `SnapshotMeaning.LoadReads` | evals/snapshots/store.ts:135-215 | Every line yields its entry, if it can be read and its key is admitted, or else a diagnostic with its number, malformed or stale, both in the order of the lines |
| `SnapshotStore.SplitJoined` | evals/snapshots/store.ts:111-117 | Splitting joined lines gives the lines back |
| `SnapshotStore.JoinedSplit` | evals/snapshots/store.ts:135-215 | Splitting any text cuts it at its newlines and loses nothing |
| `SnapshotStore.LoadInvertsSerialize` | evals/snapshots/store.ts:111-215 | Loading a written file returns what was written, without diagnostics |
| `SnapshotCompare.CreateRecordMap` | evals/snapshots/compare.ts:54-75 | Succeeds exactly on distinct keys, and maps each key to its own total |
| `SnapshotCompare.CompareSnapshotRecords` | evals/snapshots/compare.ts:154-204 | Fails exactly on a duplicate key; else one case per key of the union, each with its own classification, sorted, and the summary is the recount |
| `SnapshotMeaning.CaseReads` | evals/snapshots/compare.ts:77-152 | A case carries the totals recorded for its key on the two sides; new or orphaned if one is missing; otherwise their difference, its percentage p of the stored total s (p * s = 100 * difference), improved below s, regressed exactly if 100 * difference exceeds threshold * s, unchanged between |
| `SnapshotMeaning.SummaryReads` | evals/snapshots/compare.ts:176-203 | Each counter of the summary is the number of cases with that outcome |
| `SnapshotCompare.CountsAddUp` | evals/snapshots/compare.ts:154-204 | The five outcome counts sum to the total |
| `SnapshotCompare.ThresholdMonotone` | evals/snapshots/compare.ts:77-152 | For a case, raising the threshold never adds a regression and only turns regressed into unchanged |
| `SnapshotCompare.RegressionsShrink` | evals/snapshots/compare.ts:154-204 | For whole reports on the same records, the regressed count does not grow with the threshold, regressed and unchanged together stay, and so does every other count |
| `SnapshotCompare.RegressedByPercentage` | evals/snapshots/compare.ts:100-152 | A case is regressed exactly if its percentage exceeds the threshold, and the percentage times the stored total is a hundred times the difference |
| `SnapshotCompare.SwapMirrors` | evals/snapshots/compare.ts:77-152 | At threshold 0, exchanging the inputs exchanges new with orphaned and improved with regressed, and negates the difference |
| `SnapshotCompare.SwappedReports` | evals/snapshots/compare.ts:154-204 | and so do whole reports: every case of one has its mirror image under the same key in the other |
| `SnapshotCompare.SwappedSummaries` | evals/snapshots/compare.ts:154-204 | Their summaries have new and orphaned, improved and regressed exchanged, and the same total and unchanged count |
| `SnapshotRun.GroupRecords` | evals/run.ts:1576-1600 | One group per provider and model, holding exactly its records in order |
| `SnapshotMeaning.GroupListed` | evals/run.ts:1576-1590 | A group lists exactly the records of its provider and model, in order and as often as they occur |
| `SnapshotMeaning.SidesRead` | evals/run.ts:1645-1664 | What is compared is each record's total under its key, and each stored entry's |
| `SnapshotRun.UpdateSnapshots` | evals/run.ts:1608-1634 | The writing loop, file by file, equals the composed update |
| `SnapshotMeaning.EveryRecordWritten` | evals/run.ts:1608-1634 | After the update every record has its one entry in the file of its group, with its input, output, total and cached tokens and the time of the update |
| `SnapshotMeaning.OthersKept` | evals/snapshots/store.ts:233-287 | and an entry stored under a key that no record of the group has is still there |
| `SnapshotRun.RunGroupsValid` | evals/run.ts:1416-1472 | The groups of any run's reduced records meet the demands of the writer, so no duplicate-key invariant fires |
| `SnapshotRun.CheckAfterUpdate` | evals/run.ts:1608-1668 | Update, then check: no duplicate key on either side, and a record is unchanged with difference 0 exactly if the check admits its logical key, for every threshold and any earlier file content |
| `RunCheck.EveryRecordUnchanged` | evals/run.ts:1608-1668 | For the records of a run checked under its own selection the key is always admitted: each comes out unchanged with difference 0 |
| `RunReport.CheckSucceeds` | evals/run.ts:1635-1668 | After the update no group's comparison meets a duplicate key |
| `RunReport.NothingToReport` | evals/run.ts:1505-1668 | and the merged report of the run has nothing new, improved or regressed; its unchanged cases are as many as the run has reduced records, all others are orphaned; for every threshold and any earlier file content |
| `RunReport.CheckSnapshots` | evals/run.ts:1635-1668 | The loop over the groups and the merge yield such a report, failing exactly if a group's records or stored entries repeat a key |
| `RunCheck.ItemIsCurrent` | evals/run.ts:1474-1503 | Every work item of an active lane has a compiled case and a key among the valid ones |
| `RunCheck.BuildValidSnapshotLogicalKeys` | evals/run.ts:1474-1503 | The loop collects the keys of the selections, failing exactly on a selection without compiled case |
| `RunCheck.BuildRawTokenRecords` | evals/run.ts:1379-1414 | With the fingerprint of a case looked up once, every result with usage gives its record, failing exactly on a case that was not compiled |
| `SelectionMeaning.RecordsRead` | evals/run.ts:1379-1414 | One record per result with usage, in order: provider, model (by default the run's first, or "unknown"), identity, the compiled case's fingerprint and the usage |
| `Selection.BuildCaseSelections` | evals/run.ts:800-902 | Succeeds exactly on known case ids, distinct cases, orderly conditions and a non-empty matrix; then selections, compiled cases, active lanes and conditions are those of the cases under the requested conditions, selections and their conditions come in order, and the announced invocations are the matrix entries times the trials |
| `SelectionMeaning.SelectableIff` | evals/run.ts:816-876 | Every id given is known, no case is asked for twice, every case asked for has an id and an orderly list of conditions, and one of them runs under a requested condition: exactly then there is a selection |
| `SelectionMeaning.SelectedIff` | evals/run.ts:812-876 | A case and a condition are selected exactly if the case is of a requested lane and among the requested ids, if any, runs under the condition, and the condition is requested |
| `SelectionMeaning.ActiveInOrder` | evals/run.ts:883-888 | Active lanes and conditions come in their fixed order |
| `Selection.LabelInjective` | evals/run.ts:254-258 | The printed selection key determines lane and case |
| `Invocations.InvocationsExact` | evals/run.ts:889-891 | The announced invocations are exactly the work items the active lanes of the run enumerate, each once |
| `WorkItems.LaneItemsExact` | evals/execution/runner.ts:1413-1462 | A lane has exactly the selected combinations of its cases and conditions with trials 1 to n |
| `WorkItems.ItemsInOrder` | evals/dogfood/runner.ts:857-874 | Items come row by row, condition by condition, trial by trial |
| `WorkItems.CaseRowsListed` | evals/execution/runner.ts:1436-1456 | and the rows in the order of the lane's cases, each with the active ones of its own conditions |
| `WorkItems.LaneNeverRefuses` | evals/run.ts:1682-1694 | No check of a lane can fail on the selection made for it, and no work item occurs twice |
| `WorkItems.EnumerateLane` | evals/dogfood/runner.ts:845-878 | The nested loops yield those items, each once; a lane whose own checks fail refuses, and one whose checks pass and whose items are distinct under plain names does not |
| `WorkItems.ItemKeyInjective` | evals/lib/types.ts:28-39 | The printed work item key determines the item, whatever the case id contains |
| `WorkItems.AssertUniqueWorkItems` | evals/lib/types.ts:42-49 | Passes only if no item occurs twice, and always then, lanes and conditions holding no colon |
| `SnapshotRun.UpdateIdempotent` | evals/run.ts:1608-1634 | Repeating the update leaves the file as it is |
| `SnapshotRun.FileNameInjective` | evals/snapshots/store.ts:119-133 | Providers without hyphen: the file name determines provider and model |
| `SnapshotRun.SupportedDistinctFiles` | evals/providers/base.ts:20-26 | Any mix of supported providers and models has a file for each pair |
| `SnapshotRun.OneProviderDistinctFiles` | evals/snapshots/store.ts:119-133 | and so have the models of one provider, whatever its id |
| `SnapshotRun.MergeReports` | evals/run.ts:1505-1539 | The merged report holds all cases, its added-up summary is the recount of them, and it exists exactly if all thresholds agree |
| `Statistics.PercentileMonotone` | evals/lib/statistics.ts:201-226 | Percentiles lie within the data and grow with the probability |
| `StatisticsMeaning.PercentileSegment` | evals/lib/statistics.ts:201-226 | Between the probabilities of two neighbours the percentile is the straight line between them |
| `Statistics.BootstrapPairedCI` | evals/lib/statistics.ts:426-486 | The resampling loops stay in range and compute the summary; they fail exactly on unequal lengths |
| `StatisticsMeaning.SummaryReads` | evals/lib/statistics.ts:426-486 | The summary has count and mean of the differences, the interval of the resampled means, a point below two differences, and is significant exactly if zero lies outside |
| `StatisticsMeaning.BootstrapMeansRead` | evals/lib/statistics.ts:457-471 | Resampled mean i is the mean of as many draws as there are differences, each picked by the next random number of block i: number k of n for random values in [k/n, (k+1)/n) |
| `StatisticsMeaning.IntervalReads` | evals/lib/statistics.ts:473-478 | The interval leaves out half of what the confidence leaves open on each side of the sorted means |
| `StatisticsMeaning.FirstDraws` | evals/lib/statistics.ts:488-499 | The first two 32-bit values of the generator for the seeds 0 and 42 |
| `Statistics.BootstrapWithinRange` | evals/lib/statistics.ts:426-486 | For every random stream: min difference <= lower <= upper <= max difference, and the mean lies there too |
| `Statistics.MulberryIsUnitStream` | evals/lib/statistics.ts:488-499 | The 32-bit generator is one of those streams for every seed |
| `Statistics.Generator.Next` | evals/lib/statistics.ts:488-499 | The stateful closure delivers the stream in order |
| `Statistics.ComputeWinRate` | evals/lib/statistics.ts:388-424 | wins + losses + ties = pairs, and wins and losses are the recounts |
| `StatisticsMeaning.SignsCounted` | evals/lib/statistics.ts:388-424 | Wins and losses are the numbers of positive and of negative differences |
| `Statistics.ComputePassRate` | evals/lib/statistics.ts:325-373 | The interval contains the observed rate and lies in [0, 1] before clamping, so both clamps are no-ops |
| `Statistics.WilsonContainsRate` | evals/lib/statistics.ts:356-372 | The same about the formula, for any non-negative root of the spread |
| `StatisticsMeaning.WilsonEnds` | evals/lib/statistics.ts:356-372 | Both ends x solve n * (rate - x)^2 = z^2 * x * (1 - x) |
| `StatisticsMeaning.PassesCounted` | evals/lib/statistics.ts:325-345 | The passes are counted by position |
| `StatisticsMirror.BootstrapMirrors` | evals/lib/statistics.ts:426-486 | Exchanging the two sides under the same stream negates mean and interval and keeps the significance |
| `Comparison.LabelInjective` | evals/lib/reporting.ts:607-612 | Grouping by the printed label is grouping by case and condition, whatever the case id contains |
| `Comparison.SortBaselineComparisonTrials` | evals/lib/reporting.ts:614-637 | Returns the sorted trials exactly if no trial number repeats |
| `Comparison.SortTrialsCanonical` | evals/lib/reporting.ts:614-637 | Then neither the order of the records nor the tie-break shows |
| `Comparison.BuildBaselineComparison` | evals/lib/reporting.ts:379-541 | The loops, with their running lists and counters, compute the comparison, the first group that cannot be paired deciding the error; the five rows below say what it reads |
| `Comparison.ScoreIsShare` | evals/lib/reporting.ts:1486-1505 | A score times the possible points is the total, 0 without possible points or with a negative total, 1 at the possible points and beyond |
| `ComparisonMeaning.RowReads` | evals/lib/reporting.ts:431-513 | A line is about the trials of one group, paired by number: its rates and means add up to passes and scores of each side, its differences are candidate less baseline, wins are the trials where the candidate scores higher, improved exactly if the interval is above zero and the mean at least 0.05, regressed exactly if it is below zero |
| `ComparisonMeaning.RowKeysRead` | evals/lib/reporting.ts:390-405 | One line per case and condition that both runs have, by case id and then by condition |
| `ComparisonMeaning.OverallReads` | evals/lib/reporting.ts:514-541 | The overall line is the recount over the paired trials of all shared groups; regressed if scores or pass rate fell, otherwise improved if one of them rose |
| `ComparisonMeaning.ErrorReads` | evals/lib/reporting.ts:398-470 | A failed comparison shares no group, or names at the first group that cannot be paired a repeated trial of the baseline, then of the candidate, unequal counts, or unequal numbers |
| `ComparisonTheorems.ComparesIff` | evals/lib/reporting.ts:398-450 | It succeeds exactly if a group is shared and in every shared group both sides ran the same trial numbers, each once |
| `ComparisonTheorems.CompareOrderIndependent` | evals/lib/reporting.ts:379-541 | Permuting either file, or changing the tie-break, changes nothing, errors included |
| `ComparisonTheorems.DropsForceRegressed` | evals/lib/reporting.ts:652-683 | If the share of the points reached drops in every pair, every case and the whole run are regressed, for every random stream |
| `ComparisonTheorems.FewerPointsForceRegressed` | evals/lib/reporting.ts:652-683 | In particular if with equal possible points every candidate trial reaches fewer than its baseline trial |
| `ComparisonTheorems.RisesForceImproved` | evals/lib/reporting.ts:652-683 | If the share of the points reached rises by at least 0.05 in every pair and no passing trial fails, every case and the whole run are improved |
| `ComparisonTheorems.TotalsAddUp` | evals/lib/reporting.ts:416-541 | Overall wins, losses and ties are the sums over the cases, and together the paired trials |
| `ComparisonTheorems.SelfComparison` | evals/lib/reporting.ts:379-541 | A run compared with itself is inconclusive everywhere and all ties |
| `ComparisonTheorems.SwapMirrorsReport` | evals/lib/reporting.ts:379-541 | Exchanging the two runs mirrors every row and the totals: a row becomes improved exactly if it was regressed with a mean of at most -0.05, and the other way round; an overall improvement becomes a regression and only a regression becomes one |
| `Batch.ExecuteBatch` | src/batch/executor.ts:67-133 | The loop yields the records defined step by step from the plan, running counters equal recounts, what was emitted is the result, and the driver's waits are those of the records; the five rows below say what the records read |
| `BatchMeaning.RunVerdict` | src/batch/executor.ts:202-245 | An attempted run that was answered failed exactly if it was to be waited for and did not complete, as timed out or, on every other failure, with the session gone; its outcome in each of the four cases, seq and answer are kept |
| `BatchMeaning.InputVerdict` | src/batch/executor.ts:135-200 | An attempted input completes exactly if the driver took it, with the seq it answered; a rejection leaves its code |
| `BatchMeaning.WaitRecordVerdict` | src/batch/executor.ts:247-330 | An attempted wait's record follows from the two session checks and the driver's answer, which was asked from the seq of the latest earlier record that has one and is no wait |
| `BatchMeaning.KindsRead` | src/batch/executor.ts:78-132 | Each record is of its step's kind, and one not attempted holds nothing else |
| `BatchMeaning.ResultReads` | src/batch/executor.ts:118-133 | The counter is the number of completed records, the list the indices of the failed ones, ascending |
| `Batch.WaitsExact` | src/batch/executor.ts:247-262 | The driver is asked to wait once for exactly the attempted waits whose first session check passes, in order, each with the latest earlier non-wait seq |
| `Batch.OneRecordPerStep` | src/batch/executor.ts:78-132 | One record per step with its index and kind; with keep-going all are attempted |
| `Batch.FailFastShape` | src/batch/executor.ts:78-132 | Without keep-going the statuses read completed*, failed?, not-run* |
| `Batch.ModesAgree` | src/batch/executor.ts:78-132 | Fail-fast does what keep-going does up to the first failure: it reports exactly the first of keep-going's failures, and without failure both runs are equal |
| `Batch.WaitVerdict` | src/batch/executor.ts:247-330 | When a wait completes, which failures keep its observation, and which code each failure carries: the first check's, the driver's, the timeout or the second check's |
| `Batch.FailedRunAdvancesBaseline` | src/batch/executor.ts:112-125 | A wait that is asked right after a run whose driver answered, failed or not, is asked with that run's own seq as its baseline |
| `Batch.BuildPartialBatchResult` | src/batch/result.ts:135-157 | The push loop and the filters compute the prefix, the unreached tail and the recounts |
| `Batch.PartialAgreesWithFinal` | src/batch/result.ts:135-157 | At every prefix: full length, interrupted exactly at the first unrecorded step, completed and failed contained in the final result's, and equal to it on the complete list |
| `RegexLiteral.TryParseRegexLiteral` | evals/lib/scoring.ts:487-542 | The two-flag loop finds the first closing slash and accepts exactly valid flags |
| `RegexLiteral.ParsesIff` | evals/lib/scoring.ts:487-542 | A text is a literal exactly if it is a body of the grammar between slashes with flags among d, g, i, m, s, u, v, y behind it, and is then parsed into just these |
| `RegexLiteral.RoundTripIff` | evals/authoring/compile.ts:19-23 | Printing then scanning returns the literal exactly if the body leaves the scanner neutral with no closing slash and the flags are valid |
| `RegexLiteral.ParsedReprints` | evals/lib/scoring.ts:487-542 | Every accepted text is the print of what it was parsed to |
| `RegexLiteral.AuthoredPatternSurvives` | evals/lib/scoring.ts:472-485 | A regex keeps body and flags through compilation; a text stays a text exactly if it does not parse as a literal |
| `RegexLiteral.ScannerIsGrammar` | evals/lib/scoring.ts:497-542 | The scanner accepts exactly the bodies built from characters, escapes and classes as in section 12.9.5 of ECMA-262 |
| `LineNumbers.LineNumberFromOffset` | evals/lib/scoring.ts:554-573 | The binary search splits the starts at the offset |
| `LineNumbers.LineOfMatch` | evals/lib/scoring.ts:544-573 | On the computed starts it returns one more than the number of newline characters before the offset |

## Left out

- Scheduler and lane state are values: the pool and the lane are transition systems, because workers interleave at every `await`; a single-threaded class would not show the interleavings. Work item fields set by the preparation hook are not part of the state.
- The prompt and dogfood lanes: their hook wiring is the execution lane's, the prompt lane without a preparation step.
- A throwing dispatcher: dispatch is assumed not to throw in the lane theorems (the pool theorems allow any hook to fail); the delivery to each reporter inside the dispatcher is not modelled, events are the moments when dispatch is called and completes.
- Fixtures, targets and categories in selections and work items; the dogfood lane's refusal of an id that is blank but not empty; the loading of cases, which the schema has checked (their conditions are from the fixed list, and execution and dogfood cases have at least one).
- Regex engine: which patterns compile, matching, negation context and occurrence texts; matches are given predicates. The scanner's grammar theorem ignores the ban on line terminators and on an empty or starred start, as the code does.
- Classification of transcript lines into creations and destructions, code fences and the other anti-pattern rules: lines arrive classified.
- Paths, atomic writes, JSON text, schema validation, warnings printed for skipped lines, timestamps other than the lane's clock.
- Floating point: statistics are over exact reals; non-finite scores do not exist there, and the critical value of the normal distribution is any positive number. Confidence intervals by the t-table are not modelled.
- Fields carried along unchanged (run ids, descriptions, weights, transcript paths, and the texts of batch error messages).
- Markdown and console output, command-line parsing, provider adapters, prompt-case scoring and aggregate metrics.
- The event log, the host and the renderer.
