# Verified model of the workflow guarantees

This project models, in Dafny, the parts of the sales-workflow engine whose guarantees are about
whole runs, and proves those guarantees.

- **Prompt rollout** (`Rollout*`): the shadow/canary/full state machine of each workflow, its
  counters, approval ledger, release pointers and changelog.
- **CRM store** (`Crm*`): records with optimistic versions, an activity log per deal, and the
  idempotency cache with its concatenated keys.
- **Execution and approval** (`Policy`, `StableSort`, `Execution*`, `Retry`, `RetriedExecution`,
  `Approval*`, `RunRecords`, `Orchestrator`): the loop that executes a plan in place, the retry
  wrapper, the persisted step log that a resume replays, approve and reject calls, the commits that
  follow an execution, process ends, and the CRM store as one of the adapters.  `FailingRuns` has
  the concrete runs of the findings below.
- **Evidence** (`Evidence`, `EvidenceResults`): ranking, greedy selection, stage gates and the
  strategist's confidence.
- **Runs and provenance** (`Workflow`, `Envelope`, `EnvelopeResults`, `RunProvenance`).

Each piece has three layers.  The tables are values and the operations functions on them; a class
or a method performs the same operation in place, with the branches and early returns of the code,
and is proved equal to the function; lemmas then state what the functions keep over every sequence
of operations.  The lemmas named `...Exactly` of an operation say what it does in terms of the stored
columns, without the functions that it is made of.  `dafny verify dfyconfig.toml` checks everything.

## What the environment may do

- The digest prefix of a (run, workflow), activity ids and clock readings are arbitrary inputs.
- An adapter call is met by an arbitrary answer, or by an exception before or after it acted.  The
  n-th call of a run may be met differently from every other.
- A process may end between calls (`Restart`), within a call once any number of the events that follow
  the execution agent happened (`Dies`), and, in `OrphanedActionExactly`, within a workflow run while
  the planner stores its plan; before that there is no action that a call could be about.  The
  database, with the latest snapshot, survives; the envelope in memory and the CRM tool's dictionaries do not.  A process that
  ends in the middle of an attempt is one that ends at once after a last adapter call that raises.
  The adapter log that the theorems count is not state of the program.
- The risk cap and the allowed channels are the same in all calls on an action, except that the cap may
  rise from medium to high after the run's own resume (`OwnResumeThenApprovals`).
- Agents fail or return any plan with distinct step ids; the gates' text checks are arbitrary
  booleans of the step, fixed for its life.  `strip().lower()` is an arbitrary function on snippets.

## Findings

Some statements one would expect are false of the code.  Each has a lemma with its exact condition
or a concrete run.

- A second send is possible when an execution is not recorded (`LostExecutionResends`); one more
  success per lost execution is the worst that happens (`SuccessesAreBounded`), and only an executed
  row rules it out (`OnlyTheLogProtects`).
- Approving or rejecting one step is not enforced when the plan is executed (`ScopeIsNotEnforced`,
  `RejectedStepIsSent`).
- A step that is recorded as executed can be without its CRM note: its process ended
  (`ExecutedStepWithoutNote`, `LostNoteStaysLost`), or another deal's write with the same cache key
  came first (`CollisionSwallowsNote`).  `ExecutedCrmStepHasOneNote` says exactly when.
- A run row can stay running with a completion time (`RunRowStaysOpen`, exactly in
  `RunRowIsClosedExactly`), the history can miss a recorded execution (`HistoryMissesExecution`,
  counted in `HistoryCountsExecutions`), and an action can be without an outcome for good
  (`OutcomeStaysMissing`, exactly in `CompletingCallDecides`).
- An action whose process ended before its first snapshot is listed and can never be approved
  (`OrphanedActionExactly`).
- Hydration drops the intervention decision, whose versions then start again
  (`InterventionVersionsExactly`).
- Deal ids with a colon can be answered with another deal's response (`CollidingDeals`,
  `RefinementExactlyWithoutCollisions`).
- The active release pointer can name a deprecated release (`PointerOutlivesDeprecation`), and is
  cleared by activating an empty id (`ActiveClearedOnlyByEmptyId`).
- The health evaluation would flap under a negative degradation threshold (`EvaluationStableExactly`);
  no operation writes one (`ReachableLimits`), so this takes an edit of the table from outside, and
  every reachable evaluation is stable (`ReachableEvaluationIsIdempotent`).
- An item bound of zero still returns one item (`BoundExceeded`).
- Raising the risk cap from low to medium can block a step (`RaisingTheCapBlocks`).

## Model

| member | source | states |
|---|---|---|
| `RolloutResults.ChangelogReplaysToRow` | data/repositories/prompt_diagnostics_repo.py:617-712 | Over every run from empty tables a workflow's changelog is a word of `phase_advance auto_rollback? (promotion auto_rollback)* promotion?` or a prefix, each entry's previous value is what the entries before it lead to, and replaying it gives the row's phase and default variant |
| `RolloutRuns.LanguageIsAlternation` | data/repositories/prompt_diagnostics_repo.py:617-712 | The changelog language, defined as that expression, is the set of words with one leading phase advance after which promotions and rollbacks take turns |
| `RolloutResults.CanaryEnteredOnce` | data/repositories/prompt_diagnostics_repo.py:628-642 | Canary is entered by the first changelog entry and by no other, however often a workflow rolls back |
| `RolloutResults.ReachableRolloutStates` | data/repositories/prompt_diagnostics_repo.py:154-170 | Reachable rows: phase full exactly when the default is B; canary means A has 20 exposures; full means B has 25 and some release was approved twice; shadow always serves A and full always B; no stored phase reaches the last arm; a B metrics row exists only after a phase advance |
| `RolloutRuns.RunKeepsInv` | data/repositories/prompt_diagnostics_repo.py:154-712 | The whole invariant (log, row, exposure counts, ledger) holds after every run |
| `RolloutHealth.EvaluationExactly` | data/repositories/prompt_diagnostics_repo.py:617-712 | The whole effect of an evaluation, by the columns: the phase advance, else the rollback, else the promotion, each with its row and its changelog entry, else nothing at all; the rate gaps, votes and exposure counts are written out |
| `RolloutHealth.RollbackExactly` | data/repositories/prompt_diagnostics_repo.py:644-681 | Outside shadow, with both metrics rows and B at 10 exposures or more, the row is at shadow and A afterwards if and only if one of the four rate gaps exceeds its own threshold column |
| `RolloutHealth.AdvanceExactly` | data/repositories/prompt_diagnostics_repo.py:628-643 | A shadow row is canary afterwards if and only if A has 20 exposures and B has no row or fewer than 10 |
| `RolloutHealth.TallyCountsVotes` | data/repositories/prompt_diagnostics_repo.py:686-699 | The tally is the number of ledger entries of that workflow, release and decision |
| `RolloutHealth.DegradedExcludesBetter` | data/repositories/prompt_diagnostics_repo.py:648-681 | A candidate can fall short of the control by more than a threshold and be nowhere worse, for some metrics, exactly when a threshold is negative |
| `RolloutHealth.EvaluationIsIdempotent` | data/repositories/prompt_diagnostics_repo.py:617-712 | With thresholds that are not negative, evaluating again with unchanged metrics and approvals changes nothing at all |
| `RolloutHealth.ReachableEvaluationIsIdempotent` | data/repositories/prompt_diagnostics_repo.py:617-712 | After every run from empty tables, evaluating a workflow twice leaves what evaluating it once does |
| `RolloutHealth.ReachablePromotionIsEarned` | data/repositories/prompt_diagnostics_repo.py:682-712 | After every run, an operation makes B the default only for a promotable candidate, and an evaluation exactly for one |
| `RolloutHealth.ReachableLimits` | data/repositories/prompt_diagnostics_repo.py:515-531 | After every run each row has the canary share 0.1 and the thresholds 0.05, 0.03, 0.05 and 0.05 |
| `RolloutHealth.EvaluationStableExactly` | data/repositories/prompt_diagnostics_repo.py:617-712 | Evaluation never flaps under a row's thresholds if and only if none is negative; otherwise there are tables where a rollback is undone by the next evaluation |
| `RolloutHealth.PromotionExactly` | data/repositories/prompt_diagnostics_repo.py:682-712 | An evaluation makes B the default if and only if B has 25 exposures, is at least as good everywhere, is not degraded, and the active release has two approvals and no rejection |
| `RolloutHealth.NoDegradedPromotion` | data/repositories/prompt_diagnostics_repo.py:655-704 | No operation promotes a degraded or unapproved candidate, in shadow (where rollback is skipped) included |
| `RolloutResults.ExposuresAreConserved` | data/repositories/prompt_diagnostics_repo.py:172-271 | For each workflow and variant, a metrics row exists exactly when the variant was served, and exposures are servings plus outcomes plus rejections credited to it; replies, meetings, successes and rejections are counted exactly. An outcome of a run is credited to the workflow whose first serving in the run came last and to the variant that it was last served there, a rejection likewise for the run that the action was first stored with, all read from the operations |
| `RolloutResults.NewestWorkflowExactly` | data/repositories/prompt_diagnostics_repo.py:206-216 | That workflow is characterised by positions: the first serving of every other workflow of the run is earlier |
| `RolloutResults.FirstRunExactly` | data/repositories/action_repo.py:18-33 | So is the run of an action: that of the first operation which stored it |
| `RolloutResults.LatestIsNewest` | data/repositories/prompt_diagnostics_repo.py:206-216 | The assignment row with the highest id is of that workflow, and has the variant that it was last served |
| `RolloutResults.OutcomeExactly` | data/repositories/prompt_diagnostics_repo.py:198-241 | The whole effect of an outcome: nothing for a run that was never served, else one metrics row counts it, named by the operations, and its workflow is evaluated |
| `RolloutResults.RejectionExactly` | data/repositories/prompt_diagnostics_repo.py:243-271 | The same for a rejection, through the run that the action was first stored with |
| `RolloutResults.ServingExactly` | data/repositories/prompt_diagnostics_repo.py:145-196 | The whole effect of a serving: a new workflow gets the seed row with its literal values; the variant follows from phase, default, share and the 32-bit prefix; the bucket is A below one half; one exposure is counted; the assignment replaces that of the same run and workflow or goes to the end; nothing else changes |
| `RolloutResults.RatesAreProper` | data/repositories/prompt_diagnostics_repo.py:644-653 | Replies and rejections together stay below exposures and every rate is in [0, 1) |
| `RolloutResults.RowIsLastServed` | data/repositories/prompt_diagnostics_repo.py:172-185 | A (run, workflow) has at most one assignment row, and it names the variant of its last serving |
| `RolloutReleases.RegistrationExactly` | data/repositories/prompt_diagnostics_repo.py:534-593 | The whole effect of a registration: none for a blank note or an unknown status; else the one listing of its id is cut out and the new one goes to the end with the newest active release before it, and an active one becomes the active release, the one before it the stable one; nothing else changes |
| `RolloutReleases.ReleasesAreDistinct` | data/repositories/prompt_diagnostics_repo.py:563-581 | A listing has at most one entry per release id, so the above is about every registration |
| `RolloutReleases.VotesExactly` | data/repositories/prompt_diagnostics_repo.py:595-615 | After every run the tally of a release is the number of approve operations with that workflow, release and decision, and none for an unknown decision |
| `RolloutReleases.RollbackRestoresPrevious` | data/repositories/prompt_diagnostics_repo.py:655-666 | Over any run without a new activation, the first rollback restores the previous stable release, later ones leave it, and the previous pointer does not move |
| `RolloutReleases.TwoActivationsThenRollbacks` | data/repositories/prompt_diagnostics_repo.py:582-593 | After activating r1 and then r2, r2 is active until the first rollback and r1 from then on |
| `RolloutReleases.PointersWereActivated` | data/repositories/prompt_diagnostics_repo.py:582-593 | Both release pointers always name releases that were registered active for the workflow |
| `RolloutReleases.ActiveClearedOnlyByEmptyId` | data/repositories/prompt_diagnostics_repo.py:582-593 | A set active pointer becomes empty if and only if a release with the empty id is activated |
| `RolloutReleases.ListedIsLastRegistration` | data/repositories/prompt_diagnostics_repo.py:563-581 | A release is listed active for a workflow exactly while its last accepted registration says so |
| `RolloutReleases.PointerOutlivesDeprecation` | data/repositories/prompt_diagnostics_repo.py:582-593 | The active pointer can name a release that was deprecated afterwards |
| `Rollout.LastActive` | data/repositories/prompt_diagnostics_repo.py:552-562 | The previous stable release stored with a registration is the most recently listed active one of the workflow |
| `Rollout.LatestAssignment` | data/repositories/prompt_diagnostics_repo.py:206-216 | The row chosen for a run is one of it with no later row of it |
| `RolloutResults.CanaryShare` | data/repositories/prompt_diagnostics_repo.py:156-165 | A canary share p serves B to exactly ceil(p * (2^32 - 1)) of the 2^32 prefixes, within one of p * 2^32 |
| `RolloutResults.RaisingShareOnlyAdds` | data/repositories/prompt_diagnostics_repo.py:165 | Raising the share only moves prefixes from A to B |
| `RolloutStore.RolloutRepository.AssignVariant` | data/repositories/prompt_diagnostics_repo.py:154-196 | In place: seeds the row, upserts the assignment, counts the exposure; returns the served variant |
| `RolloutStore.RolloutRepository.RecordOutcomeMetrics` | data/repositories/prompt_diagnostics_repo.py:198-241 | In place: credits the outcome to the assignment row of the run with the highest id and evaluates that workflow; nothing for an unknown run. `OutcomeExactly` says which workflow and variant that is and what is counted |
| `RolloutStore.RolloutRepository.RecordRejection` | data/repositories/prompt_diagnostics_repo.py:243-271 | In place: credits a rejection through the action's run and evaluates; nothing for an unknown action or run. `RejectionExactly` says what is credited |
| `RolloutStore.RolloutRepository.RegisterPromptRelease` | data/repositories/prompt_diagnostics_repo.py:534-593 | In place: refuses a blank note or unknown status, replaces the listing, moves the pointers for an active one |
| `RolloutStore.RolloutRepository.RecordPromotionApproval` | data/repositories/prompt_diagnostics_repo.py:595-615 | In place: appends to the ledger, or refuses an unknown decision |
| `RolloutStore.RolloutRepository.CountVerdicts` | data/repositories/prompt_diagnostics_repo.py:686-699 | The ledger scan counts the approvals and rejections of the release in the workflow |
| `RolloutStore.RolloutRepository.EvaluateRolloutHealth` | data/repositories/prompt_diagnostics_repo.py:617-712 | In place, with the early returns of the code, does what `EvaluationExactly` spells out |
| `CrmResults.RefinementExactlyWithoutCollisions` | tools/crm_tool.py:110-238 | Over any interleaving of calls the store's responses are those of 'the first call per (operation, deal, key) takes effect, later ones repeat its response' if and only if no two writes of different triples share a cache key |
| `CrmResults.ColonFreeDealsRefine` | tools/crm_tool.py:118-186 | With deal ids free of colons the responses and the tables are those of that specification |
| `CrmResults.ColonFreeKeysAreInjective` | tools/crm_tool.py:118-186 | Cache keys of deal ids without a colon determine operation, deal and key |
| `CrmResults.CollisionShape` | tools/crm_tool.py:118-186 | Keys of two deals collide exactly when the longer deal id continues the shorter with a colon and the shorter one's key makes up the rest |
| `CrmResults.CollidingDeals` | tools/crm_tool.py:118-121 | Two deals with a colon: the second write is answered with the first deal's response |
| `CrmResults.RecordsReplayTheirLogs` | tools/crm_tool.py:27-51 | Every reachable record is the replay of its log: version is 1 plus the entries, stage the last stage write or 'proposal', each from_stage the previous to_stage, last_modified the last entry's time |
| `CrmResults.NoLostUpdates` | tools/crm_tool.py:123-173 | Two accepted writes on a deal that name an expected version never name the same one: the later names a larger one |
| `CrmResults.WriteReportsTables` | tools/crm_tool.py:191-238 | An uncached write succeeds exactly when the expected version is absent or current; its response shows the new record, version and entry, a conflict changes nothing, and other deals are untouched |
| `CrmRules.StageWriteExactly` | tools/crm_tool.py:110-173 | The whole effect of a stage write, field by field: the cached response, a conflict, or the new record, the entry with both stages, the response with its hints, and what is cached |
| `CrmRules.ActivityWriteExactly` | tools/crm_tool.py:176-238 | The same for an activity write, whose entry has the given type, note and metadata and whose record keeps its stage |
| `CrmRules.ReadsExactly` | tools/crm_tool.py:85-107 | The reads seed a missing record and report it; entry k of a timeline is the k-th newest of the log, and it has as many as the limit and the log allow, none for a limit of zero or less |
| `CrmRules.WrittenNoteIsReadFirst` | tools/crm_tool.py:241-253 | A workflow note that was written is the first entry that the next read returns, with its text, key and message |
| `CrmNotes.NotesAreExact` | tools/crm_tool.py:176-238 | Over any interleaving, colliding keys included: a timeline holds an activity of a key if and only if the cache answers that key with a success about the timeline's deal, and then once |
| `CrmNotes.AtMostOneNotePerKey` | tools/crm_tool.py:186-189 | So it holds at most one activity per key |
| `CrmNotes.ActivityWriteLeavesNote` | tools/crm_tool.py:186-253 | An activity write leaves its entry exactly if it is answered with a success about its own deal; an unconditional one is answered with a success unless a failure is cached under its key |
| `CrmNotes.ColonFreeIsHonest` | tools/crm_tool.py:186 | With deal ids free of colons no write shares a step's cache key without asking for its deal and key |
| `CrmTool.CrmStore.UpdateDealStage` | tools/crm_tool.py:110-173 | In place: cache answer, conflict, or stage write with its entry and cached response |
| `CrmTool.CrmStore.AppendActivityLog` | tools/crm_tool.py:176-238 | In place: cache answer, conflict, or one appended entry with its cached response |
| `CrmTool.CrmStore.UpdateCrm` | tools/crm_tool.py:241-253 | In place: the workflow note is an unconditional activity write keyed by the message |
| `CrmTool.CrmStore.FetchActivityTimeline` | tools/crm_tool.py:96-107 | The newest entries first, bounded by the limit, none for a negative one; seeds a missing record |
| `CrmTool.CrmStore.Restart` | tools/crm_tool.py:21-24 | A new process starts with empty dictionaries |
| `CrmTool.CrmStore.FetchDealRecord` | tools/crm_tool.py:85-93 | Reads the record, seeding a missing one |
| `ExecutionResults.AttemptsKeepBalance` | agents/execution_agent.py:74-208 | Over all attempts of one execution, the successes of a step are exactly its moves to executed, whether adapters answer, decline or raise |
| `ExecutionResults.AtMostOneSuccessPerExecution` | agents/execution_agent.py:171-184 | One execution succeeds at most once per step, and never for a step that was done or is blocked; a done allowed step stays done |
| `ExecutionResults.AttemptHandlesOnce` | agents/execution_agent.py:78-208 | One attempt calls each adapter and raises each retry count at most once, not at all for a done step, and calls none for a blocked one; if nothing raised, it handled every step and left it executed or failed with its receipt's error |
| `ExecutionResults.AttemptFollowsOrder` | agents/execution_agent.py:74-78 | The adapter calls of an attempt follow the step order |
| `ExecutionResults.AttemptsAreBounded` | agents/execution_agent.py:92-184 | Over all attempts a retry count grows by at most one per attempt, not at all for a done allowed step, and a step that is blocked, done or unsupported is never dispatched |
| `ExecutionResults.AttemptsKeepSettled` | agents/execution_agent.py:171-176 | After a step's success no attempt of the execution calls its adapter again |
| `ExecutionResults.AttemptsReturnTheDecisive` | orchestrator/runner.py:495-507 | The result of the wrapped agent is that of the attempt after the retried ones: without an error, with a terminal one, or the last |
| `ExecutionResults.RetriedAttemptsRaised` | orchestrator/retry_policy.py:28-44 | Each attempt before it raised an error that is not terminal |
| `Execution.OrderedIsPermutation` | agents/execution_agent.py:74 | The order of execution visits every step of the plan once |
| `Execution.OrderedAscends` | agents/execution_agent.py:74 | It visits them by ascending step order |
| `Execution.OrderedIsStable` | agents/execution_agent.py:74 | Steps of equal order are visited in the order of the plan |
| `Execution.HandlingExactly` | agents/execution_agent.py:78-208 | The whole effect of handling a step: failed with the first gate's error and no call; untouched if done; failed as unsupported; or sent once and executed, failed, or counted and raised, by the reply |
| `Execution.SendExactly` | agents/execution_agent.py:28-37 | The whole effect of a dispatch: one log entry; for a CRM step the write of its note under the key of its step id, unless the adapter raised before it acted; and the reply |
| `ExecutionResults.AttemptLeavesEach` | agents/execution_agent.py:78-208 | An attempt that does not raise leaves each step as handling it does after the steps before it |
| `ExecutionResults.BlockedStepFails` | agents/execution_agent.py:79-169 | A step that does not pass the policy ends the attempt failed, with the error of the first gate that it does not pass |
| `Policy.AllowedExactly` | approval/policy.py:53-104 | A step passes the gates if and only if it makes no prohibited and no legal claim, is not uncertain in an autonomous run under medium or high, is no SMS of more than 240 characters under medium or high, its channel is listed, and the cap reaches the channel: any cap for e-mail and CRM, medium for SMS, high for others |
| `Policy.ReasonsExactly` | approval/policy.py:83-104 | Each reason is listed exactly if its test fails, once, in the order of the tests |
| `Policy.BlockExactly` | agents/execution_agent.py:79-134 | A blocked step's error is that of its text if that has a reason, else of the channel list, else of the tier |
| `Policy.SupportedExactly` | agents/execution_agent.py:28-37 | Each channel has an adapter for its one action and no other |
| `Policy.RaisingTheCapBlocks` | approval/policy.py:53-104 | For a step allowed under a low risk cap, raising the cap to medium blocks it exactly when the run is autonomous and the text is uncertain |
| `Policy.MediumIsMonotone` | approval/policy.py:53-104 | From medium upwards a higher cap blocks nothing more, and lets through exactly the high-risk channels besides |
| `StableSort.SortIsStable` | agents/execution_agent.py:74 | Sorting keeps the order of the items that share a key |
| `ApprovalResults.SuccessesAreBounded` | orchestrator/runner.py:473-519 | Over any sequence of approve and reject calls, adapters that raise and processes that end at any point, a step succeeds at most once, and once more for each execution whose rows were not recorded |
| `ApprovalResults.DispatchedUntilFirstSuccess` | orchestrator/runner.py:473-493 | When every execution is recorded, a step succeeds at most once and its adapter is never called after that |
| `ApprovalTheorems.AnsweredStepIsSentOnce` | orchestrator/runner.py:473-516 | If every adapter answers and no process ends before the rows are recorded, no execution is lost, so a step succeeds at most once and is never called after that |
| `ApprovalResults.PersistedIsLatest` | data/repositories/outcome_repo.py:69-80 | Reading the step log by step order into a dictionary yields the newest row of each step |
| `ApprovalResults.BlockedStepIsNeverSent` | agents/execution_agent.py:79-169 | A step that does not pass the policy, by its fields, or whose action has no adapter is never dispatched in any run |
| `ApprovalTheorems.RecordedApproveTriesPendingSteps` | orchestrator/runner.py:495-519 | An approve whose execution is recorded calls the adapter of every allowed, supported step that is not done |
| `ApprovalTheorems.CompletedActionIsFinal` | orchestrator/runner.py:480-493 | Once every step is recorded as executed, no later call adds a dispatch, a row, a history record or an outcome, or touches the run row |
| `ApprovalTheorems.CompletingCallDecides` | orchestrator/runner.py:521-583 | The recorded call that completes the last step decides for good: unless an earlier call did so, the run is completed and the action has its outcome exactly if the evaluator did not raise and the process lived to that commit, and the same for the insight; no later call makes up for it |
| `ApprovalTheorems.OnlyTheLogProtects` | api/service.py:92-106 | Under some behaviour of the adapters a whole-action approve calls the adapter of an allowed, supported step (again) if and only if its latest persisted row is not executed with a success |
| `ApprovalTheorems.DoneRowStays` | orchestrator/runner.py:480-493 | A step whose latest row is executed is never dispatched again and keeps such a row, whatever the call |
| `ApprovalTheorems.ScopeIsNotEnforced` | orchestrator/runner.py:473-475 | A scoped approve hands a step to the agent exactly as a whole-action approve does, if and only if an execution was recorded, the step is not executed in memory, or it is in the scope |
| `ApprovalRules.ApproveExactly` | api/service.py:92-106 | The whole effect of an approve before its resume: all steps, plan and action approved, or just the steps with that id, with the plan if all steps are approved now; nothing else |
| `ApprovalRules.RejectExactly` | api/service.py:119-129 | The whole effect of a reject: all steps, plan and action rejected, or just the steps with that id with both statuses kept; nothing else anywhere |
| `ApprovalRules.ReadiedExactly` | orchestrator/runner.py:449-493 | A resume approves plan and action, and each step gets status, retry count and receipt of its newest row once an execution is recorded; a step without one is approved unless it reads executed |
| `ApprovalRules.FinishedExactly` | orchestrator/runner.py:480-493 | In every run a resume has nothing to do if and only if every step's newest row is executed |
| `ApprovalRules.ExecutionExactly` | orchestrator/runner.py:123-147 | An execution is one attempt, a second if that raised a retryable error, a third if that did too, and no more |
| `ApprovalRules.StepLogExactly` | data/repositories/outcome_repo.py:42-62 | Row i of the step log is the i-th step of the order of execution with its order, status, retry count and receipt |
| `ApprovalRules.RestoredAsLeft` | orchestrator/runner.py:480-491 | Round trip over every run: the status, retry count and receipt that a recorded execution leaves in a step are those that the next resume hands to the agent, process ends included |
| `ApprovalRules.CommitsExactly` | orchestrator/runner.py:513-583 | What the first n of the nine commits after an execution leave, for every n, in memory, snapshot, step log, run row, outcome and insights |
| `ApprovalRules.ConclusionExactly` | orchestrator/runner.py:508-550 | An escaped error fails the run and records nothing; else the commits happen up to the process end, and an evaluator error fails the run after the fourth |
| `ApprovalRules.ResumeExactly` | orchestrator/runner.py:442-550 | A resume is the prepared session if nothing is left to do, else the execution and its conclusion; a process end puts the snapshot's memory and an empty CRM store in place |
| `RunRecords.HistoryIsTrail` | orchestrator/runner.py:513-583 | The history, in memory and in the latest snapshot, is extended by exactly what each call saved before its process ended |
| `RunRecords.HistoryCountsExecutions` | orchestrator/runner.py:513-519 | History records of executions and missed executions together are the recorded executions, where a recorded execution is missed exactly if its process ended between the record and the snapshot; likewise for evaluations and insights |
| `RunRecords.RowsCountRecordings` | data/repositories/outcome_repo.py:18-62 | The step log holds one row per step of the plan for each recorded execution, and nothing else |
| `RunRecords.RunRowExactly` | data/repositories/workflow_repo.py:60-71 | The run row has the status written last, and a completion time once any call wrote a final status |
| `RunRecords.StatusOfCall` | orchestrator/runner.py:508-583 | A call leaves the row running exactly if it was recorded and its process ended between that commit and the final status |
| `RunRecords.RunRowIsClosedExactly` | data/repositories/workflow_repo.py:60-71 | The row has a completion time exactly when its status is final, if and only if it is not the case that the last status written is running and an earlier call had completed the run |
| `RunRecords.RunRowIsClosed` | data/repositories/workflow_repo.py:60-71 | As long as no process ends within a call, the row has a completion time exactly when its status is final |
| `ExecutionNotes.DeliveryLeavesNoteExactly` | agents/execution_agent.py:31 | A delivered CRM dispatch leaves its note if and only if no cached answer under its key names another deal |
| `ApprovalNotes.NotesOfRunsAreExact` | tools/crm_tool.py:186-253 | After every run, whatever other clients write, a timeline holds a step's note if and only if the cache answers its key with a success about that deal |
| `ApprovalNotes.ExecutedCrmStepHasOneNote` | agents/execution_agent.py:31 | End to end, over retries, exceptions, process ends and whatever other clients write: a CRM step marked executed that succeeded since the process started has exactly one note, except if and only if another deal's write took its cache key first; one that did not succeed since has a note if and only if another client's write for it landed |
| `ApprovalNotes.OneProcessHasOneNote` | agents/execution_agent.py:31 | In one process a CRM step marked executed has its note exactly once if and only if its key was not taken |
| `ApprovalNotes.ColonFreeStepHasOneNote` | tools/crm_tool.py:186 | With deal ids free of colons it always has |
| `ApprovalNotes.CollisionSwallowsNote` | tools/crm_tool.py:186-189 | Another deal's write that comes first under a step's cache key swallows the step's note for as long as the process lives |
| `ApprovalNotes.AtMostOneNotePerStep` | tools/crm_tool.py:186-253 | However many resumes, retries, lost executions, process ends and other CRM calls, a timeline holds at most one note per step |
| `ApprovalNotes.LostNoteStaysLost` | tools/crm_tool.py:21-24 | When a process ends, the note of a step recorded as executed is gone, and no later call of the action writes it again |
| `FailingRuns.LostExecutionResends` | orchestrator/runner.py:508-512 | The bound on successes is met: a terminal error of the second adapter leaves the first send unrecorded, and the next whole-action approve sends it again |
| `FailingRuns.TwoMailsAreResent` | orchestrator/runner.py:508-512 | A concrete plan of two e-mails for every deal in which that happens |
| `FailingRuns.RunRowStaysOpen` | data/repositories/workflow_repo.py:60-71 | A failed evaluation and then a process that ends after status running leave a running row with a completion time, which no later call changes |
| `FailingRuns.OneMailIsStuck` | data/repositories/workflow_repo.py:60-71 | A concrete plan of one e-mail for every deal in which that happens |
| `FailingRuns.OutcomeStaysMissing` | orchestrator/runner.py:492-493 | The evaluator raises on the execution that completes a one-step plan: no later call records an outcome or completes the run |
| `FailingRuns.OneMailHasNoOutcome` | orchestrator/runner.py:492-493 | A concrete plan of one e-mail for every deal in which that happens |
| `FailingRuns.HistoryMissesExecution` | orchestrator/runner.py:516-519 | A process that ends between the record and the snapshot leaves an executed row that no history mentions |
| `FailingRuns.OneMailIsMissed` | orchestrator/runner.py:516-519 | A concrete plan of one e-mail for every deal in which that happens |
| `FailingRuns.ExecutedStepWithoutNote` | tools/crm_tool.py:21-24 | A CRM step that was delivered and recorded has no note once its process ended, whatever is called then |
| `FailingRuns.OneNoteIsLost` | tools/crm_tool.py:21-24 | A concrete plan of one CRM step for every deal in which that happens |
| `FailingRuns.CollidedPlanHasNoNote` | tools/crm_tool.py:186-189 | For a new one-step CRM plan, every unconditional colliding write made before the approve makes the step read executed without a note |
| `FailingRuns.CollidingWriteExists` | tools/crm_tool.py:186 | Such a write exists for every deal and step |
| `FailingRuns.OneNoteIsSwallowed` | tools/crm_tool.py:186-189 | A concrete plan and a concrete write for every deal in which that happens |
| `FailingRuns.RejectedStepIsSent` | orchestrator/runner.py:473-475 | For every new action: rejecting a step and approving another one sends the rejected step |
| `FailingRuns.RejectedMailIsSent` | orchestrator/runner.py:473-475 | A concrete plan of two e-mails for every deal in which that happens |
| `Orchestrator.WorkflowService.Send` | agents/execution_agent.py:28-37 | Calls the adapter of a step; a CRM dispatch writes the note to the CRM store before it answers or raises |
| `Orchestrator.WorkflowService.HandleStep` | agents/execution_agent.py:79-208 | In place: gates first, then the skip of a done step, then the dispatch; does what `HandlingExactly` spells out |
| `Orchestrator.WorkflowService.HandleSteps` | agents/execution_agent.py:78-208 | The loop leaves the steps, the adapters and the step results of the ordered pass, up to a raise |
| `Orchestrator.WorkflowService.ExecutionAgent` | agents/execution_agent.py:63-77 | A plan that is not approved is not executed; otherwise one pass in step order, with a result row per step |
| `Orchestrator.Summarise` | agents/execution_agent.py:209-211 | Executed, partial or failed, from the step results |
| `Orchestrator.AllExecutedMeansAllDone` | agents/execution_agent.py:209-211 | All results of a completed attempt are successes exactly when every step of the plan is done |
| `Orchestrator.NothingExecutedMeansNoneDone` | agents/execution_agent.py:209-211 | None is a success exactly when no step is done |
| `Orchestrator.WorkflowService.ExecuteWithRetries` | orchestrator/runner.py:123-147 | The retry loop leaves what the bounded recursion over attempts leaves |
| `Orchestrator.WorkflowService.RecordExecution` | data/repositories/outcome_repo.py:18-62 | The step log gains exactly the step results, in order |
| `Orchestrator.WorkflowService.RestoreSteps` | orchestrator/runner.py:480-491 | Status, retry count and receipt come back from the newest row of each step |
| `Orchestrator.WorkflowService.Record` | orchestrator/runner.py:513-519 | In place: history record, step log, run status and snapshot in this order, up to the commit at which the process ends |
| `Orchestrator.WorkflowService.HandleEvaluatorResult` | orchestrator/runner.py:537-583 | In place: history record, outcome, insight, final status and snapshot in this order, up to the commit at which the process ends |
| `Orchestrator.WorkflowService.Conclude` | orchestrator/runner.py:508-550 | In place: a failed run for an error that escaped; else the record, then the evaluation or its failure |
| `Orchestrator.WorkflowService.EndProcess` | tools/crm_tool.py:21-24 | The envelope in memory and the CRM dictionaries are gone; the database stays |
| `Orchestrator.WorkflowService.LoadEnvelope` | api/service.py:297-310 | A call of a new process works on the envelope of the latest snapshot |
| `Orchestrator.WorkflowService.ResumeAfterApproval` | orchestrator/runner.py:442-550 | In place: reopen, restore, finish early or execute, then conclude, and the process may end |
| `Orchestrator.WorkflowService.ApproveAction` | api/service.py:76-108 | In place: an unknown action is refused; else load, whole-action or scoped marking, and resume |
| `Orchestrator.WorkflowService.RejectAction` | api/service.py:110-131 | In place: an unknown action is refused; else all steps, plan and action read rejected, or just the steps with that id, and nothing else changes |
| `RetriedExecution.ExecuteWithRetries` | orchestrator/retry_policy.py:18-44 | The generic retry wrapper around the agent leaves what the attempts of an execution leave, in as many calls |
| `Evidence.RetrievePersonaEvidence` | memory/retrieval.py:77-88 | The loop with its skip and its break returns the greedy pick of the ranked candidates |
| `EvidenceResults.RetrievedIsOptimal` | memory/retrieval.py:77-88 | For at least one item and a threshold of at least zero, no choice of that many candidates with distinct snippets and enough quality is worth more, and the pick is such a choice |
| `EvidenceResults.RetrievedPicksBestOfEach` | memory/retrieval.py:77-88 | The evidence is sorted, its snippets are distinct, and each is represented by its best candidate |
| `EvidenceResults.BoundExceeded` | memory/retrieval.py:80-87 | The bound on the number of items is exceeded if and only if it is zero and some candidate is good enough |
| `EvidenceResults.ThresholdCutsPrefix` | memory/retrieval.py:77-88 | On ranked candidates a higher threshold only cuts the pick short |
| `EvidenceResults.RecencyNeverRises` | memory/retrieval.py:30-39 | Older evidence never weighs more |
| `EvidenceResults.CandidateExactly` | memory/retrieval.py:50-76 | A candidate has its insight's id and text, a twentieth of its success rate as impact, and the rate as quality, weighed 1, 0.85, 0.7 or 0.5 for an age of up to 14, 45, 90 or more days |
| `EvidenceResults.TiesKeepTheirOrder` | memory/retrieval.py:77 | Candidates of equal quality are ranked the repository's first, each store's in its order |
| `EvidenceResults.GateExactly` | evaluation/feedback_policy.py:22-49 | Stage 2 passes all evidence if one item reaches 0.2, later stages if two items average 0.25; else nothing passes; each outcome has its own reason |
| `EvidenceResults.GatedExactly` | orchestrator/runner.py:81-86 | What each stage gives the strategist: the pick of at most five above 0, 0.02 or 0.04, if it passes the stage's gate |
| `EvidenceResults.StagesNest` | orchestrator/runner.py:81-86 | The evidence let through at a stage is a prefix of that at the stage below, for every pair of stores |
| `EvidenceResults.StricterStageNeverMoreConfident` | agents/strategist_agent.py:49-74 | A stricter feedback stage never raises the strategist's confidence |
| `EvidenceResults.ConfidenceBand` | agents/strategist_agent.py:53-69 | The strategist's confidence stays in [0.78, 0.93] |
| `EvidenceResults.ConfidenceExactly` | agents/strategist_agent.py:53-69 | It is 0.78 plus the sum of the impacts, cut to that band |
| `Retry.WithRetries` | orchestrator/retry_policy.py:18-44 | The first decisive outcome among the first retries + 1 calls, or else the last error; a terminal error stops at once; back-off after k retries totals b * (2^k - 1); nothing is called for a negative count |
| `Retry.GenerateJson` | agents/llm_client.py:100-165 | The first final answer among the first max_retries + 1, or else the last one's error code; the same total back-off, zero for a negative one |
| `Workflow.RunWorkflow` | orchestrator/runner.py:185-222 | A refused definition creates no run; an untriggered one is skipped; else the result follows from the handled prefix; and the result keeps the approval gate: an action agent's plan, action and steps are pending and its run waits if and only if the plan's confidence is below the threshold, they are approved with the run running otherwise, and a CRM agent's plan never waits |
| `Workflow.ApprovalGateExactly` | orchestrator/runner.py:376-440 | The same of every result, whatever the prefix, the agents and the adapters |
| `Workflow.NewActionExactly` | orchestrator/runner.py:376-436 | The whole session that a planner creates, field by field: statuses and run row by the gate, every step as the agent returned it otherwise, the snapshot as the memory, and nothing recorded, dispatched or written |
| `Workflow.RunStopsExactly` | orchestrator/runner.py:210-238 | A run handles the steps up to the first after which it does not go on; it fails before any action if and only if that one is unknown, its agent fails or its plan is empty, and creates an action if and only if it is a planner otherwise |
| `Workflow.OnlyCrmAgentDispatches` | orchestrator/runner.py:210-238 | No step before the last handled one plans or fails; a plan is created exactly when the last one is a planner that did not fail; and the run calls adapters if and only if that is the CRM agent and some step of its plan is allowed and supported |
| `Workflow.PlannedIsRun` | orchestrator/runner.py:437-440 | What the run of a planner does with its action is a run of the approval model: nothing, or one whole-action approve and, if that raised, a snapshot |
| `Workflow.CapMayRise` | workflows/registry.py:48-76 | Whatever calls under a medium risk cap left, the account of successes holds under a high one as well |
| `Workflow.OwnResumeThenApprovals` | orchestrator/runner.py:439 | The CRM agent's own resume under the cap of its workflow and any later approvals under the higher one of the follow-up workflow: a step succeeds at most once, and once more per lost execution |
| `Workflow.EndingIsClosed` | orchestrator/runner.py:206-219 | Whatever the agents do, the run row of the result has a completion time exactly when its status is terminal |
| `Workflow.ValidationExact` | orchestrator/runner.py:88-96 | A step list is accepted exactly when an evaluation step exists and an execution step comes before every one |
| `Workflow.NewActionIsFresh` | orchestrator/runner.py:376-396 | A new action, waiting or approved by the gate, starts the approval runs above: nothing executed, recorded or dispatched |
| `Envelope.ContextEnvelope.AppendOrRefineSection` | context/envelope.py:33-53 | In place: version, parent and creation time over the current section, source and history record; an unknown agent writes nothing |
| `EnvelopeResults.WriteExactly` | context/envelope.py:17-53 | The whole effect of a write: the section of the agent by the table, numbered after its current value or as given, with the agent as source, and one history record; nothing for an unknown agent |
| `EnvelopeResults.SectionsAreOwned` | context/envelope.py:17-26 | Over every sequence of writes, snapshots and reloads each section and each history record is of an agent that the table lets write it |
| `EnvelopeResults.SnapshotIsLastSaved` | data/repositories/workflow_repo.py:73-90 | The snapshot of each version holds the envelope last saved at that history length |
| `EnvelopeResults.VersionsCountHistory` | context/envelope.py:33-53 | For every sequence of fresh section writes and reloads, a section's version is its number of history records, its parent one less, its creation that of the first write, and every history record carries its own number; of the intervention decision as long as nothing was reloaded |
| `EnvelopeResults.InterventionVersionsExactly` | api/service.py:325-336 | The intervention decision is numbered by the history if and only if no earlier process had written one |
| `EnvelopeResults.HydrationRestartsVersions` | api/service.py:325-336 | Hydration drops it, so its next version is 1 with two records in the history |
| `EnvelopeResults.SnapshotVersionsAreContiguous` | data/repositories/workflow_repo.py:73-90 | If each write is followed by a snapshot or lost with its process, the snapshots of a run occupy exactly the versions 1 to max(history length, 1) |
| `RunProvenance.RunLeavesSnapshots` | orchestrator/runner.py:173-176 | For every workflow run that creates an action and every sequence of calls on it, raises, repeated approves and process ends included: the envelope's history is the session's, its sections are versioned by it, and the snapshots are exactly the versions 1 to max(its length, 1) |
| `RunProvenance.StartLeavesSnapshots` | orchestrator/runner.py:201-218 | The same for every workflow run by itself, skipped and failed ones included |
| `RunProvenance.OrphanedActionExactly` | orchestrator/runner.py:382-397 | For every run that creates an action: if and only if the process ends after the action row and before the snapshot, the action is listed and every approve of it raises |

## Left out

- SQLite, connections and schema migration: tables are maps and sequences with the same unique keys; the clock is monotone and ties in an ordering keep insertion order.
- HTTP, environment parsing, the API router, authentication and payload schemas: transport only.
- Prompt rendering, linting, model output parsing, redaction and sanitising: agent outputs are arbitrary.
- Floating point: rates, qualities and impacts are exact reals, and `round(..., 3)` is not applied.
- Timestamps parsed from text: insights carry their age in days.
- Edits of a step after it was executed, and several live runs on one deal: the code keeps none of the guarantees above for them.
- A resume without a run id: every service call has one, and only direct calls of the orchestrator skip recording.
- Hydrated sections other than their metadata: a reload restores the plan, its statuses, the history and the section versions.
- Exceptions of the database or of the prompt templates: the agent raises only what its adapters raise.
- The rows of the `actions` and `action_steps` tables: no modelled call reads them back, except the run of an action, which is in the rollout tables.
- Workflow stage names, metric counters, log repositories and memory writes: they decide nothing here.
- The text-based choice of a strategy type: keyword tests without state.
- Deep copies and aliasing of CRM responses: responses are values.
- SMS metadata and escalation texts in receipts: a receipt is success or failure with its error.
- Orchestrator.WorkflowService.ResumeAfterApproval: the fallback plan for an envelope without plan steps is not modelled; a planner that returns none fails its run, so every stored plan has steps.
- Orchestrator.WorkflowService.ApproveAction: the service object holds one action and its deal, so the search for the deal of an action is the comparison of the action's id.
- Orchestrator.WorkflowService.RejectAction: the rejection that it also records in the rollout metrics is `RolloutStore.RolloutRepository.RecordRejection`, on tables the service does not read.
- Policy.AllowedExactly: channel and cap names are those of the registry, in lower case; the code folds the case of a channel in the channel gate only, so that one in other letters can pass it and then fails as unsupported.
- Rollout.LastActive: what the code does with the stored previous release of a listing is nothing, so no more is stated.
