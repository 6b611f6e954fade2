# Weavegate, modelled in Dafny

Weavegate replays database races deterministically: it enumerates every schedule in which the
workers of a scenario can visit their sync-points, drives the workers through one schedule at
a time, lets oracles judge the outcome, and turns the verdicts into a process exit code.  This
project models the parts of it whose correctness is not visible from any single function, and
proves what they promise for every input, every run and every interleaving.

* **Schedules** (`Interleavings`, `Scenarios`, `Strategy`, `Enumerators`).  `Validate` accepts
  exactly the content-addressed interleavings of a scenario; the backtracking enumerator yields
  exactly those, each once, in lexicographic order, to a consumer that may stop at any time; the
  counter computes the multinomial coefficient by exact divisions and may stop early.
* **Controlled execution** (`Syncpoint`, `Stories`, `Runtimes`, `Environment`, `Traces`, `Logbooks`,
  `ExecutionProgress`, `Coordinator`, `Collectors`).  The sync-point runtime is a state machine
  whose steps are the critical sections of its lock; `Stories` says what each call must answer, told
  by what happened to the worker before.  The coordinator bootstraps, traverses and drains over that
  runtime while workers, collectors and cancellation may move between any two of its steps.  Every
  trace it leaves is safe, and a successful one is complete; it acts on every answer, and whatever
  makes it fail has a cause.
* **Verdicts** (`CanonicalOrder`, `Evaluations`, `Replays`, `Exploration`, `Verdicts`).  Oracle
  results have an order-free fingerprint; replays count fingerprints; an exploration that ends
  without a finding clears every accepted schedule; a violation that was found is reproduced by
  every replay or the verdict is flaky; exit code 0 means that everything that was run was clean.
* **Campaign collection** (`Campaigns`).  The durable store is a value, every file replacement is
  one step, and the collector may die after any of them.  No slot is measured twice, and a
  campaign that can be resumed has finished every slot it ever activated.
* **Algorithms and checkers** (`SqlSplit`, `SqlTokens`, `ConcurrencySweep`, `Stages`, `Histories`,
  `HistorySafety`, `HistoryRules`, `Markdown`, `MarkdownBlocks`, `MarkdownLinks`, `Fixtures`).  The SQL statement
  splitter, the two interval sweeps of the experiment reducers, the wire-history checker, the
  Markdown escaper and the fixture's quarantine.

`Options` and `Collections` hold what the others share.

What the model assumes: JSON, SHA-256 and the schedule digest are function parameters, and they are
taken to be injective only where a statement says so (`Hashes`, `Faithful`).  Time does not exist; a
timeout, a cancelled context, a failing check or an interrupt is a nondeterministic choice, or part of
what surrounds a run (`Replays.World`, `Verdicts.Around`).  Pointers
to Arrive calls and database handles are numbers that are never reused.  Arithmetic is exact.  The
context of an Arrive call is cancelled only together with the coordinator's; `Environment` is built on
that, and with it `Coordinator.RunCoordinator.Execute` and every run of the verdict pipeline.

Two properties that one might expect are false of the code, and stated with their exact conditions.

* A statement that the splitter returns need not split into itself again.  It splits into nothing
  exactly when each executable token of its untrimmed chunk is a byte that trimming cuts off (part of
  a white-space rune above the ASCII range, as in `SqlSplit.SpaceVanishes`) or one of two dashes that
  begin a token and end the trimmed text (`SqlSplit.DashesVanish`); see `SqlSplit.ChunkResplits`.
* The comment on the Markdown escaper promises that no value opens block syntax.  On a line of its own
  a value opens block syntax exactly if it is a lone list marker (`MarkdownBlocks.LoneMarkersStay`), a
  thematic break whose first two dashes stand together (`MarkdownBlocks.ThreeDashesStay`), or a
  heading's underline other than a single dash with blanks behind it
  (`MarkdownBlocks.EqualsSignsStay`); see `MarkdownBlocks.BlockSyntaxThatStays`.  The model follows the
  code.

Check everything with `dafny verify dfyconfig.toml`.

## Model

| member | source | states |
|---|---|---|
| Scenarios.ValidateScenario | internal/scenario/scenario.go:33-96 | succeeds exactly for scenarios with non-blank, distinct workers and points; the lookup tables it returns describe them |
| Scenarios.NextStep | internal/scenario/schedule.go:258-280 | one more step keeps a partial interleaving exactly when it is the next point of a known worker; a known, unrepeated step always leaves its worker a point to come, so the indexing is in range |
| Scenarios.CheckStep | internal/scenario/schedule.go:220-284 | reports no fault exactly when the prefix stays a partial interleaving, and every fault it reports is true |
| Scenarios.CompleteByLength | internal/scenario/schedule.go:286-310 | a partial interleaving has at most workers times points steps, and that many exactly when it is complete |
| Scenarios.FirstMissing | internal/scenario/schedule.go:286-310 | a schedule that is too short always names a missing pair, so the closing length-only rejection is unreachable |
| Scenarios.Validate | internal/scenario/schedule.go:195-313 | accepts exactly the content-addressed interleavings of a valid scenario and explains every rejection |
| Interleavings.WordsAreSpellings | internal/scenario/strategy.go:94-133 | the branching enumeration of words lists exactly the words with the prescribed letter counts |
| Interleavings.WordsAreSorted | internal/scenario/strategy.go:94-133 | it lists them in strictly increasing lexicographic order |
| Interleavings.WordCount | internal/scenario/strategy.go:62-92 | their number times the product of the letter factorials is the factorial of their length |
| Strategy.EnumerationIsExact | internal/scenario/strategy.go:94-133 | the listed schedules are exactly those that Validate accepts |
| Strategy.EnumerationIsSorted | internal/scenario/strategy.go:94-133 | the list is strictly increasing in worker-index order, hence without duplicates |
| Strategy.CountStepIsExact | internal/scenario/strategy.go:74-79 | every multiplication followed by a division of the counter is exact and gives the next partial count |
| Strategy.CountGrows | internal/scenario/strategy.go:77-88 | partial counts never decrease, so stopping at the first one over the limit is sound |
| Strategy.MultinomialLaw | internal/scenario/strategy.go:62-92 | the number of schedules is (workers x points)! / (points!)^workers |
| Strategy.CandidateCount | internal/scenario/strategy.go:62-92 | returns the number of schedules, and fails exactly when that exceeds the limit, the limit is not positive, or the scenario is invalid |
| Enumerators.DeliverIsPrefix | internal/scenario/strategy.go:94-133 | a consumer receives the schedules in order up to the first one after which it wants no more, and all of them if it never stops |
| Enumerators.Enumerator.Walk | internal/scenario/strategy.go:98-129 | the backtracking walk yields every completion of the steps taken so far and restores its position unless it was stopped |
| Enumerators.ExhaustiveSequence | internal/scenario/strategy.go:94-133 | running the sequence hands the consumer all schedules until it stops |
| Enumerators.ExhaustivePlan | internal/scenario/strategy.go:34-58 | a plan declares the exact length of its sequence and is refused exactly when that length exceeds the limit |
| Enumerators.CandidateList.Walk | experiments/control-comparison/runner/support.py:837-844 | the recursion appends the same completions in the same order |
| Enumerators.Candidates | experiments/control-comparison/runner/support.py:831-846 | for two workers the independent enumerator lists the same schedules as the Go one |
| Syncpoint.ApplyKeepsInv | internal/syncpoint/runtime.go:116-397 | every critical section keeps the runtime invariant |
| Syncpoint.ArrivedMeansOneOutstanding | internal/syncpoint/runtime.go:138-176 | in every run a worker is Arrived exactly when one unresolved arrival of it is outstanding, and it never has two |
| Syncpoint.ArriveReturnsNilIffReleased | internal/syncpoint/runtime.go:503-538 | in every run an arrival's channel closes at most once, Arrive returns nil exactly when a Release of its own worker and point resolved it, and it never wakes without a release |
| Syncpoint.ReleaseWakesExactlyThatCall | internal/syncpoint/runtime.go:263-307 | a successful Release lets exactly the outstanding call wake, with nil even if its context has ended, and touches no other call |
| Stories.ArrivalIsAdmitted | internal/syncpoint/runtime.go:541-607 | an arrival of a registered worker in an open runtime is refused exactly if the worker has ended, stands at a point already, is awaited elsewhere, was last waited for elsewhere in vain, or repeats the point it was last released from; with a point mismatch exactly when it is at the wrong point; and a refusal changes nothing |
| Stories.ArrivalIsScreened | internal/syncpoint/runtime.go:138-152 | in this order a done context, misuse (a blank name), a closed runtime and an unknown worker are refused, and nothing else for these reasons |
| Stories.WaitIsScreened | internal/syncpoint/runtime.go:178-205 | in this order a done context, misuse (a blank name, or a timeout that is not positive), a closed runtime and an unknown worker are refused, and nothing else for these reasons |
| Stories.ReleaseIsScreened | internal/syncpoint/runtime.go:263-285 | in this order a done context, misuse (a blank name), a closed runtime and an unknown worker are refused, and nothing else for these reasons |
| Stories.NextPointIsOpen | internal/syncpoint/runtime.go:541-607 | after a successful release a worker may arrive at any other point that it is not awaited away from, and not at the same one |
| Stories.LatePointIsOpen | internal/syncpoint/runtime.go:427-495 | after a wait timed out the worker may still arrive at that point, and at no other |
| Stories.WaitIsAnswered | internal/syncpoint/runtime.go:178-230 | a wait is refused while another is on, answers at once exactly when the worker's story holds the answer, and is registered otherwise |
| Stories.WakeIsAnswered | internal/syncpoint/runtime.go:232-260 | a wait that wakes answers from the story, else from its context, else from its timer, else sleeps on; an answer ends it, and only a timeout leaves a mark |
| Stories.ReleaseIsAnswered | internal/syncpoint/runtime.go:263-307 | a release succeeds exactly if the worker stands at that point, names a mismatch exactly if it stands at another, and otherwise changes nothing |
| Stories.FinishIsAnswered | internal/syncpoint/runtime.go:309-344 | a registered worker can be finished exactly while it neither stands at a point nor has ended, once |
| Stories.OnlyWorkersFinish | internal/syncpoint/runtime.go:309-344 | a blank or unknown worker cannot be finished, and nothing changes |
| Stories.RegisterIsAnswered | internal/syncpoint/runtime.go:116-136 | registering succeeds exactly for a new, named worker in an open runtime, and otherwise says why and changes nothing |
| Stories.ReturnIsAnswered | internal/syncpoint/runtime.go:503-538 | Arrive returns nil exactly if its call was released, and otherwise says whether the runtime was closed or its context ended |
| Stories.CloseIsToldOnce | internal/syncpoint/runtime.go:370-397 | closing frees every worker that stands at a point and changes no other story |
| Runtimes.Runtime.Register | internal/syncpoint/runtime.go:116-136 | the method on the mutable runtime equals its step function |
| Runtimes.Runtime.ArriveStart | internal/syncpoint/runtime.go:138-168 | the first critical section of Arrive equals its step function |
| Runtimes.Runtime.ArriveWake | internal/syncpoint/runtime.go:503-538 | the second critical section of Arrive equals its step function |
| Runtimes.Runtime.WaitStart | internal/syncpoint/runtime.go:178-230 | the first critical section of WaitArrive equals its step function |
| Runtimes.Runtime.WaitWake | internal/syncpoint/runtime.go:232-259 | a wake-up of WaitArrive equals its step function |
| Runtimes.Runtime.Release | internal/syncpoint/runtime.go:263-307 | equals its step function |
| Runtimes.Runtime.Finish | internal/syncpoint/runtime.go:309-344 | equals its step function |
| Runtimes.Runtime.Close | internal/syncpoint/runtime.go:370-397 | the loop over all workers equals the one-step close |
| Environment.EvolvesKeeps | internal/syncpoint/runtime.go:116-344 | whatever workers and collectors do between two coordinator steps, a worker held at a point stays held there until it is released or ends |
| Environment.WaitAnswer | internal/syncpoint/runtime.go:399-495 | what each answer of a wait says about the worker at that moment |
| Traces.SettledOnce | internal/orchestrator/run.go:544-559 | in a safe trace no step is released or skipped twice |
| Traces.ArrivedOnce | internal/orchestrator/run.go:447-472 | in a safe trace an arrival is recorded once, and no timeout of it afterwards |
| Traces.EndIsFinal | internal/orchestrator/run.go:709-724 | in a safe trace no worker ends twice and nothing of it is released after its end |
| Traces.ReleasedPointsArePrefix | internal/orchestrator/run.go:544-559 | in a safe trace the released steps of a worker are a prefix of its saved steps, in order |
| Traces.EveryStepSettledExactlyOnce | internal/orchestrator/run.go:335-409 | in a safe and complete trace every saved step has exactly one release or skip event |
| Traces.EveryWorkerEndsExactlyOnce | internal/orchestrator/run.go:335-409 | in a safe and complete trace every worker has exactly one terminal event |
| Traces.ReleasesFollowTheScenario | internal/orchestrator/run.go:447-481 | the released points of every worker are a prefix of the scenario's points, all of them when none of its steps was skipped |
| Logbooks.AnswersAreHeeded | internal/orchestrator/run.go:447-472 | in a coordinator's log the entry after an answered wait does what the answer asks: records the arrival or the timeout, skips a done worker's step, or names a fault |
| Logbooks.ObservationsWereHeard | internal/orchestrator/run.go:483-542 | every recorded arrival and timeout is what the wait just before answered for that step |
| Logbooks.FaultsEndTheLog | internal/orchestrator/run.go:335-409 | nothing follows a fault or a refused wait |
| Logbooks.InvocationsAreAwaited | internal/orchestrator/run.go:411-445 | every invocation is followed by a wait, with the short timeout, for that worker's first step |
| ExecutionProgress.InterleavingIsDistinct | internal/orchestrator/run.go:335-409 | a validated schedule repeats no step |
| ExecutionProgress.StepMoves | internal/orchestrator/run.go:447-472 | each way to handle a step keeps the traversal invariant, among it that a worker with a pending step has not ended |
| ExecutionProgress.ArrivedIsCleared | internal/orchestrator/run.go:652-670 | a pending step whose worker has arrived there has all earlier steps of that worker released |
| Coordinator.RunCoordinator.WaitArrive | internal/orchestrator/run.go:483-542 | waiting leaves every other worker as it was, whatever happens meanwhile |
| Coordinator.RunCoordinator.Bootstrap | internal/orchestrator/run.go:431-445 | observing a worker's first step keeps the traversal invariant |
| Coordinator.RunCoordinator.Traverse | internal/orchestrator/run.go:447-472 | handles one saved step and keeps the traversal invariant |
| Coordinator.RunCoordinator.DrainPending | internal/orchestrator/run.go:561-650 | a pass that reports progress strictly shrinks the pending set; one without progress leaves it unchanged and has just recorded one more timeout for each pending step, in index order; any other failure has its cause in the log |
| Coordinator.RunCoordinator.DrainAll | internal/orchestrator/run.go:375-388 | draining terminates; without a failure nothing is left pending; it gives up for lack of progress exactly after a pass that timed out once more for each of the n > 0 steps it names as pending |
| Coordinator.RunCoordinator.Collect | internal/orchestrator/run.go:672-690 | accepting a worker's outcome records its one terminal event |
| Coordinator.RunCoordinator.Execute | internal/orchestrator/run.go:335-409 | every trace is safe even after a failure, and told by a log in which every answer of a wait is acted on; a lack of progress names n > 0 pending steps, and the trace ends with exactly one timeout of each; every other failure repeats the fault or the refused answer that ends the log; a success leaves a complete trace, nothing pending, the terminals in worker order, and counters that say how many waits timed out and how many steps were released although they or an earlier step of their worker had timed out; a release is refused only in a cancelled run |
| Collectors.Source.Receive | internal/orchestrator/outcome.go:68-100 | after cancellation every read spends budget; before it at most one read can slip past |
| Collectors.CollectInvocation | internal/orchestrator/outcome.go:102-173 | publishes exactly one value and closes; starts at most two reads after cancellation, and reads on until the stream closes or its own context ends; the errors are exactly what is wrong with the first outcome, then with the rest of the stream, and there are none exactly when the stream gave one outcome of the right worker, Finish succeeded in the state the runtime was in at that moment, and the stream closed; the run is cancelled exactly if there is an error; the runtime changes by that Finish alone, whatever its other users do before and after |
| Collectors.Interpret | internal/orchestrator/outcome.go:131-154 | only the worker's own result reaches the runtime; every malformed outcome has its own error, and the runtime's refusal is the only error of the worker's own result |
| CanonicalOrder.SortOrders | internal/oracle/evaluation.go:206-251 | the specified sort orders its input and permutes it |
| CanonicalOrder.SortIsStable | internal/oracle/evaluation.go:219-221 | elements with equal keys keep their relative order |
| CanonicalOrder.OrderIsUnique | internal/oracle/evaluation.go:191-193 | a list whose keys identify its elements has only one ordering |
| CanonicalOrder.SortStable | internal/oracle/evaluation.go:219-221 | sorting the array in place gives the specified sort of its old contents |
| Evaluations.NormalizeResults | internal/oracle/evaluation.go:67-86 | accepts exactly the valid result lists and keeps their declaration order |
| Evaluations.SortCanonicalRows | internal/oracle/evaluation.go:206-226 | leaves the rows in the specified order of their encodings |
| Evaluations.SortCanonicalViolations | internal/oracle/evaluation.go:228-251 | leaves the violations in the specified order of kind and rows |
| Evaluations.FingerprintResults | internal/oracle/evaluation.go:170-204 | computes the canonical fingerprint of valid results and rejects all others |
| Evaluations.TiesDoNotMatter | internal/oracle/evaluation.go:219-224 | any ordering of rows by encoding gives the same encoded list, whatever it does with ties |
| Evaluations.SameRows | internal/oracle/evaluation.go:206-226 | canonical rows agree exactly when the rows are the same up to order |
| Evaluations.SameViolations | internal/oracle/evaluation.go:228-251 | canonical violations agree exactly when the violations are the same up to order of violations and rows |
| Evaluations.FingerprintsIdentifyEvidence | internal/oracle/evaluation.go:170-204 | valid evaluations have equal fingerprints exactly when they agree up to the order of results, violations and rows |
| Evaluations.NewEvaluation | internal/oracle/evaluation.go:31-41 | succeeds exactly for valid results, keeps them in declaration order, and its fingerprint is their own |
| Evaluations.ValidateEvaluation | internal/oracle/evaluation.go:45-65 | accepts exactly the valid evaluations that carry their own non-empty fingerprint |
| Replays.EqualRunsViolateAlike | internal/orchestrator/replay.go:122-136 | runs with equal fingerprints carry the same evidence, terminals and trace, and agree on whether an invariant was violated |
| Replays.ManyFingerprints | internal/orchestrator/replay.go:109-118 | more than one fingerprint is counted exactly when some run differs from the first |
| Replays.TallyCounts | internal/orchestrator/replay.go:109-115 | the counts say how often each fingerprint occurs and sum to the number of runs; the mismatches are the positions that differ from the first |
| Replays.NormalizedFingerprint | internal/orchestrator/replay.go:122-136 | hashes a run exactly when its evaluation is valid |
| Replays.Orchestrator.Run | internal/orchestrator/run.go:80-306 | a completed run has an accepted schedule, a valid evaluation and its own fingerprint, and its trace is the coordinator's: safe and complete, with terminals that agree with it; it carries what the oracles found, and a run fails only for the first of these reasons: a rejected schedule, what stopped it before, the coordinator, what stopped it after, or an invalid evaluation |
| Replays.ControlledRunsAreOrderly | internal/orchestrator/run.go:335-409 | in every completed run each saved step was settled exactly once, each worker ended exactly once, and each worker's released points are a prefix of the scenario's |
| Replays.Orchestrator.Replay | internal/orchestrator/replay.go:37-120 | without a fault the schedule ran exactly repeat times and the replay is flaky exactly when there are mismatches; otherwise it is not flaky and, hashes being injective, only a failed run or a bad repeat count stops it |
| Exploration.ExplorePlan | internal/orchestrator/explore.go:69-157 | the fault and the result say exactly what the runs made were: cancelled exactly if the context was, a negative total exactly if declared; exhaustion is a clean sweep of the whole plan, a finding the first violating candidate, a candidate failure the first failing one, a count error a plan that contradicts its own total; the summaries are those of the completed candidates |
| Exploration.SweepExonerates | internal/orchestrator/explore.go:104-156 | a clean sweep of all schedules has run every schedule that Validate accepts, once |
| Exploration.Explore | internal/orchestrator/explore.go:41-62 | with the exhaustive strategy it is refused exactly for an invalid scenario or more schedules than the limit (5000 by default), and a count error never occurs; exhaustion clears every accepted schedule, and otherwise the finding is the first violating one |
| Verdicts.ComputeVerdict | cmd/weavegate/verdict.go:40-60 | counts violating runs, and is flaky when the replay is or when an exploration's fingerprint is not the only one replayed |
| Verdicts.UniqueFingerprint | cmd/weavegate/verdict.go:64-72 | the only fingerprint when there is exactly one, and empty otherwise |
| Verdicts.SteadyReplayIsUnanimous | cmd/weavegate/verdict.go:52-57 | a replay that is not flaky violates in every run or in none |
| Verdicts.DiscoveryIsReproducedOrFlaky | cmd/weavegate/execute.go:98-118 | a violation that exploration found is reproduced by every replay or the verdict is flaky |
| Verdicts.ExecuteExplore | cmd/weavegate/execute.go:76-129 | an exhausted outcome stands on that many clean sweeps, any other on a finding that was replayed and judged; it counts the schedules explored; without an outcome the error is the fixture's exactly if the fixture failed the last run |
| Verdicts.ExecuteReplay | cmd/weavegate/execute.go:50-74 | an outcome stands on a completed replay of the given schedule; without one the error is the fixture's exactly if the fixture failed the last run |
| Verdicts.ExitCode | internal/ci/exitcode.go:82-106 | the whole table: 0 exactly without error, flakiness, violation and cleanup failure; 2 exactly for a steady violation; 3 exactly for flakiness; 4 exactly for a fixture error or a cleanup failure that spoils a pass; 5 exactly for input and output errors; 130 exactly for an interrupt |
| Verdicts.RunScenario | cmd/weavegate/run.go:189-282 | every completed run was controlled by the coordinator; 0 means everything that was run was clean and every planned run was made; 2 that the discovery, if any, and all replays violated alike; 3 that these runs of one schedule differ; 4 and 5 that preparation, the last run, cleanup or publishing failed accordingly; 130 that the user interrupted; and there is no other code |
| Verdicts.RunExhaustive | cmd/weavegate/plan.go:92-105 | over the exhaustive plan 0 means that every pass ran every schedule that Validate accepts, once, and found it clean; 2 that a discovery and its replays violated alike; 3 that they differ; and without a plan nothing is run and the code is 5 |
| Campaigns.Campaign.SaveProgress | experiments/control-comparison/runner/support.py:763-775 | replaces the checkpoint and then its seal; dying in between leaves the old pair, the new pair, or an unsealed checkpoint |
| Campaigns.Campaign.RetainedProgress | experiments/control-comparison/runner/support.py:790-828 | returns whether the store is an accepted one: sealed slots that are an ordered prefix, a matching sealed checkpoint, a registration that names the frozen manifest and order, no active slot, a stop only in the last slot |
| Campaigns.Campaign.Register | experiments/control-comparison/runner/tool.py:179-201 | a measurement goes on only with a retained registration that names the frozen manifest and order; dying in between bars resuming or changes nothing |
| Campaigns.Campaign.Activate | experiments/control-comparison/runner/tool.py:237-238 | activation bars every resume as soon as it touches the disk |
| Campaigns.Campaign.Measure | experiments/control-comparison/runner/tool.py:263-344 | writes only in the slot's directory; says whether a step failed and whether it must stop; the measured command of a supported slot is started once unless a step failed before, of an unsupported slot never; and a reason to stop is given exactly if something called for it |
| Campaigns.Campaign.CloseSlot | experiments/control-comparison/runner/tool.py:346-386 | without a stop the slot is sealed and checkpointed as consumed; a stop bars every resume |
| Campaigns.Campaign.Attempt | experiments/control-comparison/runner/tool.py:237-418 | an attempt leaves the campaign resumable behind the slot with a true record of it, stopped for good because something called for a stop, or dead in a state that keeps the invariant |
| Campaigns.Campaign.Collect | experiments/control-comparison/runner/tool.py:214-418 | a session touches nothing unless the campaign can be resumed; it refuses only for that, its limit or its registration, halts only when something called for a stop, and otherwise consumes exactly the slots its limit allows; it keeps the invariant wherever it dies |
| Campaigns.CompletionIsResumable | experiments/control-comparison/runner/support.py:790-828 | a checkpoint without a stop is accepted by the next resume |
| Campaigns.ResumableMeansFinished | experiments/control-comparison/runner/support.py:790-828 | a campaign that can be resumed has finished every slot it ever activated, in order, and recorded no stop |
| Campaigns.TamperingIsNoticed | experiments/control-comparison/runner/support.py:790-828 | a campaign that can be resumed no longer can be once the checkpoint, its seal, a slot's files, seal or directory, the retained registration or the frozen files are changed, a directory is added, or a stop marker appears |
| Campaigns.RecordsAreChecked | experiments/control-comparison/runner/support.py:790-828 | what every record and the checkpoint of a campaign that can be resumed say |
| Campaigns.Campaign.Sessions | experiments/control-comparison/runner/tool.py:204-418 | over any number of sessions, each with a registration and slot limit of its own, over crashes and lost slot directories no measured command starts twice; while the campaign can be resumed its slots are exactly the ones activated, nothing has called for a stop, and every record is true: a supported slot's command was started exactly once or its record tells of an earlier failure; and a barred campaign stays barred and unchanged |
| SqlSplit.TrimParts | internal/fixture/sql.go:237-244 | trimming cuts bytes that mean nothing to the scanner off both ends, and does nothing twice |
| SqlSplit.BlockTailIsFirst | internal/fixture/sql.go:303-308 | a block comment ends at its first closing mark |
| SqlSplit.SplitStatements | internal/fixture/sql.go:231-325 | the byte scanner computes the statements of the token grammar, or its fault |
| SqlSplit.ConsumeQuotedByte | internal/fixture/sql.go:338-378 | consumes one unit inside quotes, and leaves the quote exactly at its closing mark |
| SqlSplit.FailsExactlyOnUnterminated | internal/fixture/sql.go:312-321 | splitting fails exactly when a token begins with a quote or block comment that never closes |
| SqlSplit.JoinedSourcesSplitApart | internal/fixture/sql.go:246-310 | two sources joined by a semicolon split independently if the first ends between tokens and outside line comments |
| SqlSplit.StatementsResplit | internal/fixture/sql.go:237-252 | the source is its chunks joined by semicolons, and yields one trimmed statement for each chunk that has an executable token and is not blank |
| SqlSplit.ChunkResplits | internal/fixture/sql.go:237-252 | the trimmed text of a chunk splits into itself exactly when an executable token of the chunk is neither cut away by trimming nor one of two closing dashes that begin a token, and into nothing otherwise |
| SqlSplit.CutTokensAreWide | internal/fixture/sql.go:237-252 | an executable token that trimming cuts away is a byte above the ASCII range |
| SqlSplit.DashesVanish | internal/fixture/sql.go:327-336 | two dashes before a semicolon are a statement, but alone they are a comment |
| SqlSplit.SpaceVanishes | internal/fixture/sql.go:237-297 | a comment behind a no-break space is a statement, but once trimmed it is nothing |
| SqlTokens.TokensAreSpelled | internal/fixture/sql.go:246-378 | the splitter takes a token of a kind and a length exactly when the bytes spell it: a semicolon; pieces between two quotes that no third quote follows; a line comment up to the first line end; a block comment up to its first closing mark; any other byte |
| SqlTokens.OtherwiseUnterminated | internal/fixture/sql.go:312-321 | it fails exactly on an opening mark that no token begins with, and names that mark |
| SqlTokens.QuotedIsSpelled | internal/fixture/sql.go:338-378 | a quoted token is bytes, escaped bytes and doubled quotes between two quotes that no further quote follows; behind a backtick a backslash is an ordinary byte |
| SqlTokens.BackslashedTextIsOneToken | internal/fixture/sql.go:338-360 | any text in single or double quotes with a backslash before every backslash and quote is one token, and alone one statement |
| SqlTokens.DoubledTextIsOneToken | internal/fixture/sql.go:338-378 | so is any text in any quotes with its quotes and, but for backticks, its backslashes doubled |
| SqlTokens.NoBackslashHidesBacktick | internal/fixture/sql.go:363-378 | the first backtick closes a backtick-quoted name, whatever backslashes it holds |
| SqlTokens.ExecutableTokens | internal/fixture/sql.go:254-297 | which tokens make a statement: quotes, executable comments, and bytes above the blank that begin nothing else |
| SqlTokens.SpaceRunes | internal/fixture/sql.go:237-244 | white space is the UTF-8 encodings of the white-space code points |
| SqlTokens.TrimTakesSpace | internal/fixture/sql.go:237-244 | trimming takes white-space runes off both ends until neither end is one |
| ConcurrencySweep.PeakConcurrency | experiments/gate-performance/harness/ci.py:127-131 | the sweep's peak is the largest number of half-open intervals that share an instant |
| ConcurrencySweep.SumsAreCovered | experiments/gate-performance/harness/ci.py:128-131 | the running count never falls below zero, and a start never counts more than what covers its instant |
| ConcurrencySweep.SweepEndsAtZero | experiments/gate-performance/harness/ci.py:128-131 | when the sweep is over nothing is active |
| Stages.UnionLength | experiments/control-comparison/runner/analyze.py:67-70 | the union length is the number of nanoseconds that any interval covers, at most the length of the root |
| Stages.Reduce | experiments/control-comparison/runner/analyze.py:39-74 | accepts exactly the valid span trees, the durations are listed by name in order, and the negative-remainder check never fires |
| Histories.History | scripts/check-external-sut-vectors.py:309-486 | accepts exactly the histories whose every step is allowed by the state before it |
| HistorySafety.CheckMoves | scripts/check-external-sut-vectors.py:324-486 | an allowed step changes invocation lifecycles only in the ways listed, each with its condition |
| HistorySafety.ReleaseIsEarned | scripts/check-external-sut-vectors.py:451-454 | an exchanged release repeats the latest arrival of its invocation, which nothing resolved before, after the runtime returned nil for it |
| HistorySafety.TerminalIsFinal | scripts/check-external-sut-vectors.py:462-484 | an invocation has at most one exchanged terminal, after it was accepted and after the runtime returned for each of its arrivals |
| HistorySafety.OneUnretiredCall | scripts/check-external-sut-vectors.py:332-336 | a worker is called again only after its previous invocation was retired |
| HistorySafety.FramesAreGapless | scripts/check-external-sut-vectors.py:405-413 | the recorded frame numbers of each peer are 1, 2, 3 and so on |
| HistorySafety.ExchangedFramesCount | scripts/check-external-sut-vectors.py:405-413 | every exchanged frame carries the next number of its receiver and is recorded |
| HistoryRules.RunAgrees | scripts/check-external-sut-vectors.py:309-486 | what the checker remembers of an accepted history is what its steps told: for every invocation, worker and peer |
| HistoryRules.StepsAreRuled | scripts/check-external-sut-vectors.py:324-486 | after an accepted history exactly those steps are accepted that a rule about the steps before them allows |
| HistoryRules.HistoriesAreRuled | scripts/check-external-sut-vectors.py:309-486 | a history is accepted exactly if its targets are one or both peers, once each, and every step follows that rule |
| HistoryRules.TerminalsRepeatFacts | scripts/check-external-sut-vectors.py:462-484 | an exchanged terminal repeats the transaction and lease of the latest Java completion for its invocation, whose proxy had exited unless the transaction never began; an error it tells a Java target of is the first cancellation's or the latest exception |
| HistoryRules.InvokesRepeatCalls | scripts/check-external-sut-vectors.py:436-440 | an exchanged invocation repeats an earlier Go call |
| HistoryRules.NothingFollowsFatal | scripts/check-external-sut-vectors.py:414-421 | once a fatal frame is taken, only fatal frames are taken and stops that ask for no answer |
| Markdown.DecodeIsExact | internal/report/markdown.go:180-194 | decoding keeps every byte, malformed ones apart from a genuine replacement character |
| Markdown.DecodeRunes | internal/report/markdown.go:180-194 | the loop computes that decoding |
| Markdown.EscapeValue | internal/report/markdown.go:146-175 | the escaped value unescapes to the input, and every rune of it is printable |
| Markdown.EscapeIsReversible | internal/report/markdown.go:146-175 | an unescape function recovers every value, malformed bytes included |
| Markdown.EscapeIsInjective | internal/report/markdown.go:177-179 | different values never render alike |
| Markdown.EscapeIsHarmless | internal/report/markdown.go:142-175 | an escaped value has no line break, unprintable rune or dollar sign, and never begins like an indented code block |
| Markdown.EscapeOpensNoInline | internal/report/markdown.go:142-253 | read by Markdown's own backslash rule, an escaped value has no live delimiter, no trailing backslash and no live underscore outside words |
| Markdown.OrdinaryValuesStay | internal/report/markdown.go:146-253 | a value of printable runes that open nothing where they stand is written as it is |
| MarkdownBlocks.ItemsThatStay | internal/report/markdown.go:214-235 | an escaped value begins like a list item exactly when the value is a list marker other than an asterisk and nothing else |
| MarkdownBlocks.RulesThatStay | internal/report/markdown.go:205-235 | an escaped value is a thematic break exactly when the value is one of dashes whose first two stand together |
| MarkdownBlocks.UnderlinesThatStay | internal/report/markdown.go:205-235 | an escaped value is a heading's underline exactly when the value is one and not a single dash with blanks behind it |
| MarkdownBlocks.BlockSyntaxThatStays | internal/report/markdown.go:142-175 | an escaped value opens block syntax (heading, quote, HTML, fence, definition, indented code, item, thematic break, underline) exactly in those three cases, and then it is the value itself |
| MarkdownBlocks.LoneMarkersStay | internal/report/markdown.go:214-217 | a dash, and a one with a dot, are written unchanged and are list items |
| MarkdownBlocks.ThreeDashesStay | internal/report/markdown.go:142-145 | three dashes are written unchanged and are a thematic break |
| MarkdownBlocks.EqualsSignsStay | internal/report/markdown.go:142-145 | two equals signs are written unchanged and are an underline |
| MarkdownLinks.NoLinkForms | internal/report/markdown.go:237-253 | in an escaped value no scheme that begins with a letter stands before a live "://", and no free-standing www before a live dot |
| Fixtures.MySqlFixture.Provision | internal/fixture/mysql.go:52-157 | equals its step of the lifecycle |
| Fixtures.MySqlFixture.Ready | internal/fixture/mysql.go:177-193 | equals its step of the lifecycle |
| Fixtures.MySqlFixture.Reset | internal/fixture/mysql.go:208-260 | equals its step of the lifecycle |
| Fixtures.MySqlFixture.Quarantine | internal/fixture/mysql.go:262-275 | equals its step of the lifecycle |
| Fixtures.MySqlFixture.Teardown | internal/fixture/mysql.go:277-332 | equals its step of the lifecycle |
| Fixtures.RunAgrees | internal/fixture/mysql.go:52-332 | after any calls the fixture's state says what an observer of the call results knows |
| Fixtures.CallsThatSucceed | internal/fixture/mysql.go:52-332 | which calls succeed, told by the calls before them and their answers: a reset exactly when the database is up, its handle sound and no quarantine holds, and it was alive, closed, recreated and applied; likewise for the other calls |
| Fixtures.QuarantineHolds | internal/fixture/mysql.go:177-332 | after a quarantine neither Ready nor Reset succeeds before a teardown without error and a later successful provisioning |
| Fixtures.OnlyTheNewestHandle | internal/fixture/mysql.go:177-193 | only the newest handle ever passes Ready, and none that a teardown has reached |
| Fixtures.InvalidStaysInvalid | internal/fixture/mysql.go:208-332 | a handle whose descriptor was invalidated stays invalid for good |

## Left out

* Run finalization after execution (`finalizeEvidence`, joining of cleanup errors) and all error
  texts and wrapping; only the class of an outcome is kept.
- Replays.Orchestrator.Run: fixture reset, adapter start and stop and session faults are reduced to whether they stop the run before or after the coordinator; the fixture-reset event that begins every trace is left out.
* `Snapshot` and the printable names of worker states; the state of a worker that was never
  registered.
* The `changed` channel of the runtime: a blocked wait may wake at any time and then looks again.
* Loading and writing saved schedules, and the clones that keep values apart.  Slices are values, so
  aliasing between an evaluation's results and its sorted copy is not modelled; the copy is made
  before sorting.
* The nil checks of contexts, evaluators, strategies and sequences.
- Campaigns.Campaign.Measure: the hooks, proofs, warm-up and evidence checks of an attempt are commands that may leave any output and may fail; their own checks are not modelled.
- Campaigns.Campaign.RetainedProgress: the seal of the frozen bundle, its sources, pins and lock identities are left to a check that may fail; a stop reason is never empty.
- Stages.Reduce: arithmetic is exact, so floating-point rounding of the remainder is not modelled.
- ConcurrencySweep.PeakConcurrency: the job and page checks before the sweep are not modelled.
- Histories.History: the premises of injected frames are a parameter, and message shapes are reduced to the numeric bounds that lifecycles depend on; effect vocabulary, stderr content, prefix expansion and the matching of promised emissions are not modelled.
- Fixtures.MySqlFixture.Provision: credentials, containers, SQL and redaction are reduced to whether they succeed.
- MarkdownBlocks.BlockSyntaxThatStays: a value is taken as a line of its own, and only the blocks of the CommonMark specification are considered, not GitHub's tables.
- MarkdownLinks.NoLinkForms: a scheme glued to the letters of a spelled-out escape is not covered, and neither is one behind a digit or sign, which the code does not take for a scheme.
- Verdicts.RunScenario: report files, diagnostics and manifests are reduced to whether publishing fails.
* Docker, MySQL, JDBC, subprocesses, signals, command-line and YAML handling, the release scripts,
  and the statistics of the experiments: operating-system and library behaviour, or easy members.
