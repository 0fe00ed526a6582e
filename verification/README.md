# AgenticQueue, modelled and proved in Dafny

AgenticQueue is a coordination plane for agents: a board of tasks with contracts and dependencies, a cache of the
context packets agents read, an append-only audit log, paged lists, a work graph, a ledger of learnings and role grants.
This project models those six parts and proves what they keep over every run. Code that updates state in place is
modelled by classes and methods; each such method is proved against a step function, and the theorems are about every
sequence of those steps. What a step does is stated independently of its function, field by field: who is let through,
what changes and what does not.

| file | what it holds |
|---|---|
| `Base.dfy`, `Texts.dfy`, `Ordering.dfy`, `Digraph.dfy` | JSON values, string stripping, sorting, walks and levels in directed graphs |
| `Transitions.dfy`, `DodReports.dfy`, `Dod.dfy`, `Validator.dfy` | the transition engine and retry settings; definition-of-done (DoD) reports, runs and submission validation |
| `Lifecycle.dfy`, `TaskBoard.dfy` | every task request as a step of one state machine, and the handlers that carry the steps out in place |
| `StepEffects.dfy` | what each of these requests changes, said of rows, runs and log entries alone |
| `LifecycleTheorems.dfy`, `Progress.dfy`, `RetryBudget.dfy`, `Evidence.dfy`, `Ownership.dfy` | what every run of that machine keeps |
| `CodingTasks.dfy` | concrete coding tasks and boards to which those theorems apply |
| `PacketCacheSpec.dfy`, `PacketCache.dfy` | the cache as a function of its history, and the class that refines it |
| `AuditChain.dfy` | the hash chain: digest input, backfill, insert trigger, verifier |
| `Pagination.dfy` | the cursor clause, the page rule and the in-memory pager |
| `GraphView.dfy` | reachability, collapse, levels and grid layout of the work graph |
| `Learnings.dfy`, `LearningLedger.dfy`, `Promotion.dfy` | draft review, deduplication, replacements, promotion |
| `Roles.dfy` | role assignments and the grants they materialise |

## What the proofs found

- **The claim endpoint can undo the lifecycle's guarantees.** `POST /v1/tasks/claim` takes the states to claim from and
  the state to claim to from its caller (app.py:787-805), and `claim_next` writes that state without consulting a policy. So it can take a task
  out of the dead letter queue, or mark one done or blocked. Each lifecycle theorem therefore comes with an exact
  condition on claim parameters (`ClaimKeepsWakeupsIff`, `ClaimKeepsBudgetIff`, `ClaimKeepsEvidenceIff`,
  `ClaimKeepsOwnershipIff`); the defaults, todo or queued to claimed, satisfy all four.
- **A task whose contract declares no `dod_checks` under human review can be validated and never approved.** Validation
  accepts it without a report, and approval needs one (`Evidence.UncheckedGetsStuck` for every such task,
  `CodingTasks.UncheckedIsStuck` for a concrete one, `Evidence.ApprovalOpensIff` for exactly when approval succeeds).
- **The audit digest does not tell SQL NULL from JSON null.** `jsonb_build_object` prints both alike in `before`, `after`
  and `redaction`, so swapping one for the other goes unnoticed (`AuditChain.NullGoesUnnoticed`); any other alteration
  of a digested field is located (`AuditChain.AlterationIsLocated`).
- **The audit verifier cannot see the newest row removed.** Removing any other row is located at its successor
  (`AuditChain.RemovalIsLocated`). `TipFixesHistory` says what is needed besides: the last hash, kept elsewhere.
- **A run row created through the generic endpoint can become a task's latest.** Its creation time and report are the
  caller's. A row without a report blocks every later approval of any validated task (`Evidence.StoredRunBlocksApproval`),
  and one with a passing report opens the approval of any, with or without declared checks (`StoredRunOpensApproval`,
  applied to the stuck task in `CodingTasks.StoredRunFreesUnchecked`); `Evidence.StoredRunKeepsEvidenceIff` says exactly
  when such a row does no harm.
- **A walk over the pages can list a row twice.** The order key contains `updated_at` (crud.py:507-513), which every
  update moves (models/shared.py:58-63). A row that ends a page and is updated before the next one is read comes
  again (`Pagination.UpdatedRowListedTwice`); where no two rows were created at the same time that is the only way
  (`ListedAgainIff`). None is missed, though: a row whose key only grows is always listed (`GrowingRowNeverMissed`).
- **Collapsing can move a card below a cycle.** Such a card has no longest chain, and what the level search answers for
  it depends on what was asked before, so hiding another card can swap two columns (`GraphView.CollapseCanMoveLoop`).
  Every other card stays in the column of its level (`GraphView.BuildBundle`).
- **Promotion can bring two like learnings together without a merge decision.** `Promotion` moves a learning one scope
  up and never asks the deduplicator (`Learnings.PromotionCanDuplicate`, with the exact condition in
  `PromotionKeepsDeduplicatedIff`).
- **A DoD report survives storage exactly when it is sturdy**: it has at least one item and no blank one. A contract
  statement of white space would not survive, but then the report is not all CHECKED, because no check can name it
  (`Dod.CheckedReportIsSturdy`), so an accepted report always does.
- **A release writes the state "todo"**, which is not among the task states (repo/queue.py:187-193, transitions.py:20-33). The
  transition engine refuses it, and only a claim or a reset moves such a task on (`LifecycleTheorems.TodoMovesOnlyBy`).

## Model

| member | source | states |
|---|---|---|
| Lifecycle.ActiveDeps | apps/api/src/agenticqueue_api/task_actions.py:429-448 | The active dependencies of a task are the targets of exactly those of its DEPENDS_ON edges that nothing marks superseded or inactive. |
| Lifecycle.Dependents | apps/api/src/agenticqueue_api/task_actions.py:457-474 | The dependents considered on completion are the sources of all edges into the task, superseded ones too, each once. |
| TaskBoard.TaskBoard.UnblockReadyDependents | apps/api/src/agenticqueue_api/task_actions.py:451-507 | Releasing one dependent after another in place has the effect of releasing, all at once, every blocked one whose active dependencies are all done, and logs each release. |
| TaskBoard.TaskBoard.RecordTaskFailure | apps/api/src/agenticqueue_api/task_actions.py:307-373 | A failed validation uses one attempt, records the failure, clears the claim, and requeues the task or, at the maximum, sends it to the dead letter queue with a second audit entry. |
| TaskBoard.TaskBoard.SubmitTask | apps/api/src/agenticqueue_api/task_actions.py:510-796 | A submission is the lifecycle's submit step on the whole board, with the same status on every refusal. |
| TaskBoard.TaskBoard.ApproveTask | apps/api/src/agenticqueue_api/task_actions.py:799-871 | An approval is the lifecycle's approve step: guarded by the latest stored report, releasing dependents. |
| TaskBoard.TaskBoard.RejectTask | apps/api/src/agenticqueue_api/task_actions.py:874-977 | A rejection is the lifecycle's reject step: two transitions, one more attempt, the queue or the dead letter queue. |
| TaskBoard.TaskBoard.ResetTask | apps/api/src/agenticqueue_api/app.py:889-917 | A reset by an administrator empties the attempt count, the last failure and the claim, and requeues the task from any state. |
| TaskBoard.TaskBoard.ClaimNextTask | apps/api/src/agenticqueue_api/app.py:782-815 | A claim takes a task in one of the requested states to the requested state and sets owner and time. |
| TaskBoard.TaskBoard.ClaimTask | apps/api/src/agenticqueue_api/repo/queue.py:149-184 | A claim by id takes a todo or queued task to claimed, and is a conflict otherwise. |
| TaskBoard.TaskBoard.ReleaseTask | apps/api/src/agenticqueue_api/repo/queue.py:187-225 | A release gives up the caller's own claim, or any claim for an administrator. |
| TaskBoard.TaskBoard.UnlockEscrow | apps/api/src/agenticqueue_api/task_actions.py:980-1002 | A forced unlock by an administrator ends a claim whoever holds it, and is logged; anyone else is refused. |
| TaskBoard.TaskBoard.CreateRun | apps/api/src/agenticqueue_api/crud.py:631-659 | Creating a run row takes its creation time and report from the caller, and needs a task, a fresh id and the capability to run tests. |
| Transitions.PassesIff | apps/api/src/agenticqueue_api/transitions.py:207-327 | A change between any two states passes exactly when both are task states, the policy lists it, and capabilities, tier, human approval, report and waiting time allow it. |
| Transitions.UnjudgedIff | apps/api/src/agenticqueue_api/transitions.py:197-209 | Exactly which requests are not judged at all. |
| Transitions.FirstGuard | apps/api/src/agenticqueue_api/transitions.py:211-306 | Which guard is reported when several fire. |
| Transitions.EscalatesIff | apps/api/src/agenticqueue_api/transitions.py:296-327 | A passing change escalates exactly when a task leaves blocked for the escalation target or a requeue after rejection uses up the retries. |
| Transitions.DonePassesIff | apps/api/src/agenticqueue_api/transitions.py:207-286 | A move to done passes exactly when state table, capabilities, autonomy tier and human approval allow it and a report without an unchecked item is at hand. |
| Transitions.TransitionEffect | apps/api/src/agenticqueue_api/transitions.py:296-327 | A stopped transition changes neither state nor attempts; a passing one reaches the requested state and counts an attempt only for a requeue after rejection. |
| Transitions.ResolvedBudget | apps/api/src/agenticqueue_api/task_retry.py:30-81 | The resolved maximum is at least 1 when the default is, and resolving a resolved policy again changes nothing, so submission, endpoint and view agree on the maximum. |
| StepEffects.ReleasedIff | apps/api/src/agenticqueue_api/task_actions.py:451-507 | A request changes another task exactly when it finishes its own and that other one is a blocked dependent with an edge in force, all of whose edges in force now lead to done tasks; it is then queued without owner and claim time. |
| StepEffects.SupersededMarks | apps/api/src/agenticqueue_api/models/edge.py:54-67 | Each of four marks takes an edge out of force, and nothing else does. |
| StepEffects.SubmitRefused | apps/api/src/agenticqueue_api/task_actions.py:510-562 | A submission by a caller who may not submit the task, or from another state, changes nothing. |
| StepEffects.SubmitFails | apps/api/src/agenticqueue_api/task_actions.py:587-603 | A permitted submission with issues costs one attempt, records the failure, clears the claim, puts the task into the dead letter queue exactly when attempts reach the maximum and else into the queue, logs one or two entries, and changes nothing else. |
| StepEffects.SubmitPasses | apps/api/src/agenticqueue_api/task_actions.py:604-796 | A permitted submission without issues takes the task to validated, or to done without human review, clears the claim, stores one run and logs releases and itself, exactly when the policy opens each step; else nothing changes. |
| StepEffects.ApproveEffect | apps/api/src/agenticqueue_api/task_actions.py:799-871 | An approval finishes the task, clears the claim and logs itself after the releases, exactly when state, caller, policy and the latest report allow it; else nothing changes. |
| StepEffects.RejectEffect | apps/api/src/agenticqueue_api/task_actions.py:874-977 | A rejection costs one attempt exactly as a failed validation does, where state, caller and policy allow it; else nothing changes. |
| StepEffects.ClaimEffect | apps/api/src/agenticqueue_api/app.py:782-815 | A claim changes state, owner and claim time of a task in one of the states asked for, by default todo or queued, and nothing else. |
| StepEffects.EndOfClaimEffect | apps/api/src/agenticqueue_api/repo/queue.py:187-225 | Exactly who ends which claim, and that only the administrator's unlock is logged. |
| StepEffects.ResetEffect | apps/api/src/agenticqueue_api/app.py:889-917 | An administrator's reset leaves nothing of a task but its contract and policy, from any state; anyone else's changes nothing. |
| StepEffects.StoreRunEffect | apps/api/src/agenticqueue_api/crud.py:631-659 | A run row is stored as its caller gives it, exactly when permitted and under a fresh id, and touches no task. |
| StepEffects.RefusalStatus | apps/api/src/agenticqueue_api/task_actions.py:510-871 | The status of every request that is refused before the engine judges it. |
| StepEffects.JudgedStatus | apps/api/src/agenticqueue_api/transitions.py:207-286 | A change the engine stops is a conflict where the policy lists it, and an error where not. |
| Transitions.OverrideResolves | apps/api/src/agenticqueue_api/task_retry.py:30-49 | An override of at least one attempt resolves to itself, written as a number or as digits with white space around. |
| Transitions.OnlyOverridesResolve | apps/api/src/agenticqueue_api/task_retry.py:30-49 | Nothing but such an override resolves to anything but the default. |
| LifecycleTheorems.OthersOnlyReleased | apps/api/src/agenticqueue_api/task_actions.py:480-505 | A request changes no task but its own, except that blocked tasks may be requeued. |
| LifecycleTheorems.TodoMovesOnlyBy | apps/api/src/agenticqueue_api/repo/queue.py:187-225 | A released task changes only by a reset, a claim by id or a claim of todo tasks, and the transition engine knows no move from its state. |
| LifecycleTheorems.NoRunLosesWakeups | apps/api/src/agenticqueue_api/task_actions.py:451-507 | Over every run of claims, releases, submissions, approvals, rejections and resets, on any dependency graph, no blocked task ever has active dependencies that are all done. |
| LifecycleTheorems.ClaimKeepsWakeupsIff | apps/api/src/agenticqueue_api/app.py:782-815 | The exact claim parameters that keep this on every board and graph. |
| Progress.SomeTaskIsOpen | apps/api/src/agenticqueue_api/task_actions.py:429-507 | Deadlock freedom: on an acyclic graph whose blocked tasks have active dependencies, while anything is unfinished some task is neither blocked nor done. |
| Progress.CodingTasksHaveAnOpenRoad | task_types/coding-task.policy.yaml:1-55 | The shipped policy lets any task within its autonomy tier through from in progress to done. |
| Progress.WorkFinishes | apps/api/src/agenticqueue_api/task_actions.py:510-871 | Claim by the default states, submitted proof and approval finish a waiting task under an open policy, any other task after a reset by an administrator, and otherwise only release blocked tasks. |
| Progress.WorkShrinks | apps/api/src/agenticqueue_api/task_actions.py:451-507 | Finishing one task this way leaves exactly one unfinished task less and the board as healthy as before; where all open tasks wait to be claimed, that stays so. |
| Progress.EveryOrderDrains | apps/api/src/agenticqueue_api/task_actions.py:429-507 | On an acyclic graph every order of open tasks finishes one task at a time and none gets stuck, so exactly as many completions as there are unfinished tasks drain the graph, by release alone where all open tasks wait to be claimed. |
| Progress.GraphDrains | apps/api/src/agenticqueue_api/task_actions.py:429-507 | Such an order exists from every healthy board, and without an administrator where all open tasks wait to be claimed. |
| RetryBudget.BudgetStep | apps/api/src/agenticqueue_api/task_actions.py:319-338 | Every request keeps attempts below the maximum outside the dead letter queue and equal to it inside, and the row agreeing with the audit log. |
| RetryBudget.BudgetHolds | apps/api/src/agenticqueue_api/task_actions.py:913-941 | Over every run, failed validations and rejections of a task since its last reset, counted in the audit log, equal its attempts and never exceed the maximum. |
| RetryBudget.RemainingIsExact | apps/api/src/agenticqueue_api/task_retry.py:52-81 | The reported remaining attempts are exactly the maximum minus the attempts, and 0 exactly in the dead letter queue. |
| RetryBudget.OnlyResetLeavesDeadLetters | apps/api/src/agenticqueue_api/app.py:889-917 | A task leaves the dead letter queue only by a reset, or by a claim that names that queue. |
| RetryBudget.ClaimKeepsBudgetIff | apps/api/src/agenticqueue_api/app.py:782-815 | The exact claim parameters that keep every task within its budget. |
| Evidence.LatestRunIsNewest | apps/api/src/agenticqueue_api/task_actions.py:252-264 | The latest run of a task is the one created last, with the greatest id among those, and there is none exactly when the task has no run. |
| Evidence.NewRunIsLatest | apps/api/src/agenticqueue_api/task_actions.py:252-264 | The run just stored is its task's latest, and no other task's. |
| Evidence.StoredReportReloads | apps/api/src/agenticqueue_api/task_actions.py:141-264 | The report an accepted submission stores reads back as the same report: none without declared checks, else nonempty, nonblank and all CHECKED. |
| Evidence.SupportStep | apps/api/src/agenticqueue_api/task_actions.py:820-846 | Every request keeps each validated or finished task resting on the stored report and human approval its contract and policy ask for. |
| Evidence.NothingFinishesUnsupported | apps/api/src/agenticqueue_api/task_actions.py:642-850 | Over every run whose claims and stored runs meet those conditions no task is done without a stored passing report, nor without a human approval since its last reset where the policy asks for one. |
| Evidence.ApprovalOpensIff | apps/api/src/agenticqueue_api/task_actions.py:820-850 | In every board that such a run reaches, approving a validated task succeeds exactly when its contract declares checks and caller and policy allow it: the stored report never stands in the way. |
| Evidence.ClaimKeepsEvidenceIff | apps/api/src/agenticqueue_api/app.py:782-815 | The exact claim parameters that keep every validated and finished task supported. |
| Evidence.StoredRunKeepsEvidenceIff | apps/api/src/agenticqueue_api/crud.py:631-659 | Exactly when a run that a caller stores through the generic endpoint keeps every validated and finished task supported: refused, or not of the future and either older than the latest run or with a report as good as needed. |
| Evidence.UncheckedGetsStuck | apps/api/src/agenticqueue_api/task_actions.py:820-826 | Whenever a task without declared checks is accepted up to validated, every later approval is refused. |
| Evidence.StoredRunBlocksApproval | apps/api/src/agenticqueue_api/crud.py:631-659 | A run row without a report, stored for any validated task as of the next instant, leaves every later approval of it without effect, whoever asks and however often. |
| Evidence.StoredRunOpensApproval | apps/api/src/agenticqueue_api/crud.py:631-659 | A run row with any passing report, stored for any validated task under the shipped policy, makes the next approval finish the task, whatever its checks returned. |
| CodingTasks.UncheckedIsStuck | apps/api/src/agenticqueue_api/task_actions.py:820-826 | A concrete coding task, with every contract field the schema requires, that is accepted and then refused every approval. |
| CodingTasks.StoredRunFreesUnchecked | apps/api/src/agenticqueue_api/task_actions.py:252-264 | Storing a run row with a passing report for that very task makes the same approval succeed. |
| CodingTasks.TwoTasksDrain | apps/api/src/agenticqueue_api/task_actions.py:429-507 | A board where one workable coding task waits for another is healthy and acyclic, and a capable caller without administrator rights drains it in two completions, the waiting task last. |
| CodingTasks.TwoCodingTasks | task_types/coding-task.schema.json:153-313 | Two tasks of one concrete contract with a declared check, the one blocked and the other queued, make up such a board. |
| Ownership.OwnershipHolds | apps/api/src/agenticqueue_api/repo/queue.py:40-225 | Over every run whose claims lead to claimed or in progress, a task has an owner and a claim time exactly while it is in one of those states. |
| Ownership.OwnerKeepsTask | apps/api/src/agenticqueue_api/task_actions.py:524-545 | A task is taken from its owner only by the owner's or an administrator's request, or by a claim that asks for tasks already being worked on; default claims never do it. |
| Ownership.ClaimKeepsOwnershipIff | apps/api/src/agenticqueue_api/app.py:782-815 | The exact claim targets that keep ownership and working states together. |
| DodReports.CountsAre | apps/api/src/agenticqueue_api/dod.py:160-175 | Each count of a report is the number of its items in that state. |
| DodReports.CountsAddUp | apps/api/src/agenticqueue_api/dod.py:160-175 | The four counts of a report always sum to the length of its checklist. |
| DodReports.ReportRoundTrip | apps/api/src/agenticqueue_api/task_actions.py:208-249 | Storing and reloading gives back the same report exactly when it has an item and no blank one. |
| DodReports.DecodedIsSturdy | apps/api/src/agenticqueue_api/task_actions.py:208-249 | Whatever is stored, a report that reads back has an item and no blank one. |
| Dod.ResolvedItems | apps/api/src/agenticqueue_api/dod.py:57-117 | The items of a contract are its structured ones where a single one is complete, and only else the statements of the task or the texts of the checklist, numbered from one. |
| Dod.StructuredOneMore | apps/api/src/agenticqueue_api/dod.py:57-93 | Structured items are picked in order: those with all five proof fields, stripped, and no others. |
| Dod.TextsOneMore | apps/api/src/agenticqueue_api/dod.py:95-105 | So are the nonblank texts of a checklist. |
| Dod.RunsAllOrNone | apps/api/src/agenticqueue_api/dod_checks/common.py:145-168 | A run has one result per declared check, in order, or none at all when a single check is malformed, a shell check, without a positive timeout or objected to by its handler. |
| Dod.AggregateStates | apps/api/src/agenticqueue_api/dod.py:178-200 | An item is checked or partial as all or some of its checks pass, blocked when nothing names it or, without a pass, when some check is blocked and none unmet, and else unmet. |
| Dod.ChecklistOrder | apps/api/src/agenticqueue_api/dod.py:143-158 | A checklist starts with the statements of the contract and goes on with what results name besides, in order of first appearance. |
| Dod.GroupResults | apps/api/src/agenticqueue_api/dod.py:120-158 | Running the checks in turn and filling groups as results come in leaves, per item, exactly its results in order, and the items in order of first appearance. |
| Dod.RunDodChecks | apps/api/src/agenticqueue_api/dod.py:120-175 | The loops compute the report that aggregating the results statement by statement defines. |
| Dod.AllCheckedIff | apps/api/src/agenticqueue_api/dod.py:143-200 | A checklist is all CHECKED exactly when every check returned CHECKED and every contract statement is named by a check. |
| Dod.EveryResultCountedOnce | apps/api/src/agenticqueue_api/dod.py:143-175 | With distinct statements, every check result is aggregated into exactly one checklist item. |
| Dod.CheckedReportIsSturdy | apps/api/src/agenticqueue_api/dod.py:57-175 | A report that is all CHECKED survives storage. |
| Validator.DodIssues | apps/api/src/agenticqueue_api/validator.py:167-238 | The loops that collect issues and grow the set of seen ids list exactly the issues of the results and the missing items. |
| Validator.MatchFinds | apps/api/src/agenticqueue_api/validator.py:167-200 | A result refers to the last item with its id and, only where no item has that id, to the last with that statement. |
| Validator.DodIssuesAre | apps/api/src/agenticqueue_api/validator.py:167-238 | Exactly which issues the results raise, result by result, and which items are reported missing. |
| Validator.NoDodIssuesIff | apps/api/src/agenticqueue_api/validator.py:167-238 | The submitted results raise no issue exactly when the contract has no items, or each result names a known item, with evidence if it passed and a reason if not, and every item has one. |
| Validator.ValidateSubmission | apps/api/src/agenticqueue_api/validator.py:63-138 | Validation appends schema, retry, DoD and report issues in order and carries the report of the checks it ran. |
| Validator.IssuesAre | apps/api/src/agenticqueue_api/validator.py:63-138 | Exactly which other issues a well-formed submission gets, and which report comes with them. |
| Validator.MalformedIssues | apps/api/src/agenticqueue_api/validator.py:63-138 | A malformed submission gets its payload issues alone, and no report. |
| Validator.ValidIff | apps/api/src/agenticqueue_api/validator.py:63-138 | A submission is valid exactly when it meets its schema, a retry carries a learning, the results are complete, and with declared checks every one and every statement is CHECKED. |
| Validator.AcceptedReport | apps/api/src/agenticqueue_api/validator.py:118-138 | A valid submission carries, with declared checks, a nonempty, nonblank, all CHECKED report, and none otherwise. |
| PacketCacheSpec.GetIsSound | apps/api/src/agenticqueue_api/packet_cache.py:146-192 | Over every history, an answered get returns the payload of the latest put for its key, less than the TTL old, with no covering invalidation handled since. |
| PacketCacheSpec.EvictedOnlyWhenCrowded | apps/api/src/agenticqueue_api/packet_cache.py:168-192 | A key that a put evicts has been followed by at least `max_entries` other keys put or hit since its last use. |
| PacketCacheSpec.KeptUntilCrowded | apps/api/src/agenticqueue_api/packet_cache.py:129-192 | Completeness, whatever the clock readings: a key after which fewer than `max_entries` other keys were put or hit is cached exactly while its latest put is not invalidated and no look-up has found it expired. |
| PacketCacheSpec.CachedIsInStanding | apps/api/src/agenticqueue_api/packet_cache.py:129-192 | Whatever is cached was put, not invalidated since, and not found expired by any look-up since. |
| PacketCacheSpec.GoodKeyAnswers | apps/api/src/agenticqueue_api/packet_cache.py:146-192 | A key not crowded out is answered exactly while it is in that standing and its latest put is fresh, and then with that payload. |
| PacketCacheSpec.FreshKeyAnswers | apps/api/src/agenticqueue_api/packet_cache.py:146-192 | Where clock readings only climb, freshness alone decides: no look-up can have found such a key expired before. |
| PacketCacheSpec.EntriesAccountedFor | apps/api/src/agenticqueue_api/packet_cache.py:129-192 | Conservation: insertions of new keys equal the current size plus evictions, expiry drops and invalidations. |
| PacketCacheSpec.CountedAs | apps/api/src/agenticqueue_api/packet_cache.py:146-166 | A get counts as a hit, an empty miss or an expired miss as it answers, finds no entry or finds a stale one; nothing else counts. |
| PacketCacheSpec.GetsAccountedFor | apps/api/src/agenticqueue_api/packet_cache.py:146-166 | Hits plus misses equal the number of gets, and misses the sum of their reasons. |
| PacketCacheSpec.AlwaysDistinct | apps/api/src/agenticqueue_api/packet_cache.py:168-192 | The cache never holds one key twice nor more than `max_entries` entries. |
| PacketCache.PacketCache.Put | apps/api/src/agenticqueue_api/packet_cache.py:168-192 | A put takes the object state to that of the history with the put appended, and keeps a fresh copy. |
| PacketCache.PacketCache.Get | apps/api/src/agenticqueue_api/packet_cache.py:146-166 | A get gives what the history answers, as a fresh copy, and updates recency and counters as the history says. |
| PacketCache.PacketCache.HasCached | apps/api/src/agenticqueue_api/packet_cache.py:129-144 | Tells whether a get would be answered, and drops an expired entry without counting a miss. |
| PacketCache.PacketCache.HandleInvalidation | apps/api/src/agenticqueue_api/packet_cache.py:242-310 | A notice removes exactly the entries it covers and reports their number. |
| PacketCache.PutKeepsItsOwnCopy | apps/api/src/agenticqueue_api/packet_cache.py:168-192 | Changing a payload after putting it, at the top or in its nested part, does not change what a get returns. |
| PacketCache.GetHandsOutACopy | apps/api/src/agenticqueue_api/packet_cache.py:146-166 | Changing a returned payload, at the top or in its nested part, does not change what later gets return. |
| PacketCache.NoticeRoundTrip | apps/api/src/agenticqueue_api/packet_invalidation.py:42-104 | The notice published for a write covers, when handled as an object or as text, exactly the written row's project, or everything when that is unknown. |
| PacketCache.NoticeCovers | apps/api/src/agenticqueue_api/packet_invalidation.py:42-89 | For each kind of row, exactly which cached entries the notice of its write covers. |
| PacketCache.NoticeNarrowsIff | apps/api/src/agenticqueue_api/packet_cache.py:242-267 | A notice narrows the entries to one project exactly when it names one and does not ask for all; any other covers everything. |
| PacketCache.EdgeCoversTarget | apps/api/src/agenticqueue_api/packet_invalidation.py:42-82 | A changed edge between tasks covers the packets of its target side exactly when both tasks share a project or the source task is unknown. |
| AuditChain.VerifiedCountIsLongestPrefix | apps/api/alembic/versions/20260420_11_add_audit_log_worm_chain.py:247-303 | The verified count is the length of the longest prefix that is a valid chain. |
| AuditChain.RenderedAlikeIff | apps/api/alembic/versions/20260420_11_add_audit_log_worm_chain.py:46-84 | The digest sees two rows alike exactly when they agree on all ten digested fields, an absent JSON value and a JSON null being the same. |
| AuditChain.VerifyIgnoresOrder | apps/api/alembic/versions/20260420_11_add_audit_log_worm_chain.py:237-304 | The verdict on a table with distinct positions does not depend on the order in which it is stored. |
| AuditChain.AlterationIsLocated | apps/api/alembic/versions/20260420_11_add_audit_log_worm_chain.py:247-303 | Altering one row makes that row the first break and leaves every other row valid, whichever digested field is changed, unless an absent JSON value and a JSON null are all that is swapped; then every row still passes. |
| AuditChain.NullGoesUnnoticed | apps/api/alembic/versions/20260420_11_add_audit_log_worm_chain.py:62-83 | A concrete alteration that no digest notices: an absent "before" overwritten by a JSON null. |
| AuditChain.RemovalIsLocated | apps/api/alembic/versions/20260420_11_add_audit_log_worm_chain.py:247-303 | Removing a row makes its successor the first break; removing the last one goes unnoticed. |
| AuditChain.TipFixesHistory | apps/api/alembic/versions/20260420_11_add_audit_log_worm_chain.py:46-84 | Two verified logs with the same last hash hold the same rows, field by field, one by one. |
| AuditChain.RowsFixTip | apps/api/alembic/versions/20260420_11_add_audit_log_worm_chain.py:46-84 | Conversely, two verified logs whose rows agree field by field have the same hashes throughout. |
| AuditChain.BackfillIsChained | apps/api/alembic/versions/20260420_11_add_audit_log_worm_chain.py:86-172 | The backfill chains every existing row exactly once, in creation order, at positions 1, 2, 3 and on. |
| AuditChain.AuditLog.Insert | apps/api/alembic/versions/20260420_11_add_audit_log_worm_chain.py:174-217 | The trigger appends one row linked to the current tip, whatever positions rolled-back inserts used up. |
| AuditChain.AuditLog.Check | apps/api/alembic/versions/20260420_11_add_audit_log_worm_chain.py:237-304 | After the backfill and any run of inserts, the verifier passes every row. |
| Pagination.CursorClause | apps/api/src/agenticqueue_api/pagination.py:84-101 | The loop builds an OR of ANDs that a row satisfies exactly when its key is lexicographically after the cursor. |
| Pagination.LexFirstDifference | apps/api/src/agenticqueue_api/pagination.py:84-101 | Lexicographic order is being greater at the first difference, which ties the clause to the recursive order. |
| Pagination.PaginateSequence | apps/api/src/agenticqueue_api/app.py:507-536 | The in-memory pager with its early break gives the page cut from what follows the cursor. |
| Pagination.SamePageInMemory | apps/api/src/agenticqueue_api/app.py:507-536 | On sorted input the in-memory pager and the list request give the same page. |
| Pagination.PageFacts | apps/api/src/agenticqueue_api/crud.py:670-702 | A page climbs, starts past its cursor, and leaves out no matching row before its end. |
| Pagination.WalkClimbs | apps/api/src/agenticqueue_api/crud.py:670-702 | Whatever is inserted, changed or deleted between pages, the keys listed climb, so no key is listed twice; a row can be, under another key. |
| Pagination.PresentRowsListedOnce | apps/api/src/agenticqueue_api/crud.py:670-702 | A row present with the same key whenever a page is read is listed exactly once. |
| Pagination.GrowingRowNeverMissed | apps/api/src/agenticqueue_api/crud.py:670-702 | A row present throughout whose key only grows, as updates make it do, is listed on some page under the key it has then. |
| Pagination.InViewAgainIff | apps/api/src/agenticqueue_api/crud.py:507-513 | An updated row of a page lies beyond the next cursor exactly when it was created at the time the page ends with and its new key is past the end. |
| Pagination.ListedAgainIff | apps/api/src/agenticqueue_api/models/shared.py:55-63 | Where creation times are distinct, a listed row is listed again on the next page exactly when it ended its page and was updated in between. |
| Pagination.UpdatedRowListedTwice | apps/api/src/agenticqueue_api/models/shared.py:55-63 | A concrete walk over two rows that lists one of them twice. |
| Pagination.FixedTableWalkEnds | apps/api/src/agenticqueue_api/crud.py:670-702 | Following the cursors over an unchanging table ends. |
| Pagination.WholeTableWalk | apps/api/src/agenticqueue_api/crud.py:670-702 | That walk lists the whole table once, sorted, in max(1, ceil(n / limit)) pages. |
| GraphView.BuildAdjacency | apps/web/components/graph-view.tsx:1110-1123 | The map lists, for each end, exactly the other ends of its edges, in edge order. |
| GraphView.CollectDescendants | apps/web/components/graph-view.tsx:1125-1144 | The worklist returns exactly the nodes reachable over one or more edges, each once, on cyclic graphs too. |
| GraphView.HiddenIds | apps/web/components/graph-view.tsx:968-980 | The hidden set is exactly what some collapsed root reaches. |
| GraphView.HiddenSpreads | apps/web/components/graph-view.tsx:968-980 | The hidden set is closed under successors, so a visible node keeps every predecessor. |
| GraphView.CollapseKeepsLevels | apps/web/components/graph-view.tsx:968-1051 | Collapsing any set of roots changes the level of no visible node. |
| GraphView.LevelTable.LevelFor | apps/web/components/graph-view.tsx:1058-1076 | The memoised search ends on every graph and gives what the recursive search gives for the same cache and nodes being visited; its value is always the length of a chain into the node, and of the longest one unless a cycle leads to the node. |
| GraphView.SearchesAgree | apps/web/components/graph-view.tsx:1058-1076 | For a node that no cycle leads to the answer does not depend on the order in which nodes are asked for. |
| Digraph.LevelIsRooted | apps/web/components/graph-view.tsx:1058-1076 | Only a node that no cycle leads to has a longest chain into it. |
| GraphView.ColumnsClimbIffAcyclic | apps/web/components/graph-view.tsx:1058-1086 | Every edge points to a strictly later column exactly when the graph has no cycle. |
| GraphView.LayoutCards | apps/web/components/graph-view.tsx:1053-1108 | Every card gets a grid cell of its own, in the column of its level and in sorted order without gaps; the computed size is just large enough, every drawn card lies inside it, and no two overlap. |
| GraphView.GridGeometry | apps/web/components/graph-view.tsx:1087-1155 | For any placement on distinct cells no two cards overlap, all lie inside the canvas, and the clamp never takes effect. |
| GraphView.BuildBundle | apps/web/components/graph-view.tsx:953-1051 | The visible graph is the graph without the hidden cards, no two overlapping, each in the column the search answers when the visible cards are asked for in order; a card is drawn in the column of its level in the whole graph exactly when no cycle leads to it. |
| GraphView.CollapseCanMoveLoop | apps/web/components/graph-view.tsx:1058-1086 | A cycle of two cards, asked for in the same order before and after the collapse of a third card that hides neither, changes places. |
| Learnings.BestIsBest | apps/api/src/agenticqueue_api/learnings/dedupe.py:159-197 | The suggestion is the most similar active learning of the scope that reaches the threshold, the earliest on a tie, and absent exactly when there is none. |
| Learnings.SuggestedIff | apps/api/src/agenticqueue_api/learnings/dedupe.py:159-197 | There is a suggestion exactly when some active learning of the scope reaches the threshold, and it is one. |
| Learnings.Suggest | apps/api/src/agenticqueue_api/learnings/dedupe.py:159-197 | The loop with its running best computes that suggestion. |
| Learnings.MergeEvidence | apps/api/src/agenticqueue_api/learnings/dedupe.py:116-125 | The loop with its set of seen items computes the merge in order. |
| Learnings.MergedMembers | apps/api/src/agenticqueue_api/learnings/dedupe.py:116-125 | Merging loses no evidence, invents none, and lists nothing twice. |
| Learnings.PromoteConfidence | apps/api/src/agenticqueue_api/learnings/dedupe.py:101-113 | Confidence never falls below either side and grows unless already at the top. |
| Learnings.AcceptedConfirmation | apps/api/src/agenticqueue_api/learnings/dedupe.py:199-225 | An accepted confirmation leaves the matched learning with the stripped nonblank evidence of both, each once, one tier above the better confidence and the later review date, settles the draft, and changes nothing else. |
| Learnings.OtherConfirmations | apps/api/src/agenticqueue_api/learnings/draft.py:210-259 | Without a candidate, or after a rejected merge, a confirmation adds one learning with the fields of the draft, and in the second case one edge; anything else changes nothing. |
| Learnings.RefusedRequests | apps/api/src/agenticqueue_api/learnings/draft.py:210-314 | Which requests on drafts are refused, and as what. |
| Learnings.DraftEffect | apps/api/src/agenticqueue_api/learnings/draft.py:182-208 | An edit replaces the payload of a pending draft, a rejection settles it with its reason, and neither touches anything else. |
| Learnings.NoUnnoticedDuplicates | apps/api/src/agenticqueue_api/learnings/draft.py:210-259 | In every run of review, supersede and expire, of two active like learnings of one scope the later was created by an explicit rejection of a merge. |
| Learnings.SettledDraftsStay | apps/api/src/agenticqueue_api/learnings/draft.py:293-314 | A confirmed or rejected draft never changes again. |
| Learnings.ReplacementForest | apps/api/src/agenticqueue_api/learnings/lifecycle.py:37-82 | In every run from a ledger without replacements each learning has at most one, a replaced one is never active, no cycle forms, and every chain ends in an unreplaced learning. |
| Learnings.ChainsEnd | apps/api/src/agenticqueue_api/learnings/lifecycle.py:115-166 | Following replacements ends in one learning that nothing replaces, reached over the edges alone. |
| Learnings.SupersedeAcceptedIff | apps/api/src/agenticqueue_api/learnings/lifecycle.py:37-69 | Exactly when superseding is accepted. |
| Learnings.SupersedeEffect | apps/api/src/agenticqueue_api/learnings/lifecycle.py:37-69 | Superseding marks the older learning and adds the edge to the newer one with the stripped reason, and changes nothing else. |
| Learnings.ExpireEffect | apps/api/src/agenticqueue_api/learnings/lifecycle.py:71-82 | Expiring marks one known learning for a reason that is not blank, and changes nothing else. |
| Learnings.PromotionKeepsDeduplicatedIff | apps/api/src/agenticqueue_api/learnings/promotion.py:86-110 | Exactly when promoting a learning keeps the ledger free of unnoticed duplicates. |
| Learnings.PromotionCanDuplicate | apps/api/src/agenticqueue_api/learnings/promotion.py:86-110 | A concrete promotion that brings two equal learnings together without a merge decision. |
| LearningLedger.LearningLedger.ConfirmDraft | apps/api/src/agenticqueue_api/learnings/draft.py:210-259 | Confirming a draft in place is the confirm step; handing out a suggestion changes nothing. |
| LearningLedger.LearningLedger.EditDraft | apps/api/src/agenticqueue_api/learnings/draft.py:182-195 | Editing in place is the edit step, refused unless the draft is pending. |
| LearningLedger.LearningLedger.RejectDraft | apps/api/src/agenticqueue_api/learnings/draft.py:197-208 | Rejecting in place is the reject step, refused unless the draft is pending. |
| LearningLedger.LearningLedger.Supersede | apps/api/src/agenticqueue_api/learnings/lifecycle.py:37-69 | Superseding in place is the supersede step, with its refusals. |
| LearningLedger.LearningLedger.ExpireLearning | apps/api/src/agenticqueue_api/learnings/lifecycle.py:71-82 | Expiring in place is the expire step, with its refusals. |
| LearningLedger.LearningLedger.EnsureSupersedesEdge | apps/api/src/agenticqueue_api/learnings/lifecycle.py:134-166 | An existing edge keeps its place and takes the new reason; otherwise one edge is added at the end. |
| Promotion.LearningPromotion.AutoPromoteCandidates | apps/api/src/agenticqueue_api/learnings/promotion.py:59-84 | A sweep flags exactly the oldest members of groups over their threshold, clears every other flag in play and at global scope, and lists the flagged ones in creation order. |
| Promotion.EligibleIsShouldFlag | apps/api/src/agenticqueue_api/learnings/promotion.py:112-198 | Collecting occurrences into groups and counting over the learnings directly choose the same learnings. |
| Promotion.FlaggedIff | apps/api/src/agenticqueue_api/learnings/promotion.py:112-198 | In plain counts: a sweep flags an active learning exactly when it is the oldest of its group and the group occurred twice in its project or, at project scope, three times and in two projects. |
| Promotion.SweepIsIdempotent | apps/api/src/agenticqueue_api/learnings/promotion.py:59-84 | Sweeping twice is sweeping once. |
| Promotion.FlagsAreExact | apps/api/src/agenticqueue_api/learnings/promotion.py:163-198 | After a sweep no global learning is flagged, and one in play is flagged exactly when it is the oldest of a group over its threshold. |
| Promotion.LearningPromotion.Promote | apps/api/src/agenticqueue_api/learnings/promotion.py:86-110 | A promotion moves an active learning one scope up and sweeps again, or is refused and changes nothing. |
| Promotion.PromoteAcceptedIff | apps/api/src/agenticqueue_api/learnings/promotion.py:86-110 | A promotion is accepted exactly for a known, active learning and the scope one above its own. |
| Promotion.PromoteStepIsPromoted | apps/api/src/agenticqueue_api/learnings/promotion.py:86-110 | A promotion request does to scopes and statuses of the ledger exactly what the deduplication results assume, or nothing where it is refused. |
| Promotion.ScopesOnlyClimb | apps/api/src/agenticqueue_api/learnings/promotion.py:86-110 | Over any run a scope only climbs, one step for each accepted promotion of that learning. |
| Roles.FindActive | apps/api/src/agenticqueue_api/roles.py:69-92 | The assignment found is a live one of the actor and role, and there is none when none is found. |
| Roles.ConferredIsRole | apps/api/src/agenticqueue_api/roles.py:95-132 | At every instant a live assignment confers nothing beyond its role, and exactly its role when complete; any other confers nothing. |
| Roles.SyncCompletes | apps/api/src/agenticqueue_api/roles.py:95-132 | Syncing leaves an assignment complete and takes nothing from any other. |
| Roles.RevokeEffect | apps/api/src/agenticqueue_api/roles.py:213-242 | A revocation stamps its assignment and each of its standing grants with the given time or now, and leaves every other row alone. |
| Roles.RevokedForGood | apps/api/src/agenticqueue_api/roles.py:213-242 | After a revocation and any run of further requests at any times the assignment is never live again and confers nothing at any instant. |
| Roles.AssignEffect | apps/api/src/agenticqueue_api/roles.py:135-193 | An accepted assignment takes the oldest live row of the pair or a new one, with the expiry asked for, confers exactly the role until then, and leaves every other assignment and its grants alone. |
| Roles.AssignGrantsMissing | apps/api/src/agenticqueue_api/roles.py:95-132 | It adds grants only for capabilities of the role that no live grant of it confers. |
| Roles.OtherEffects | apps/api/src/agenticqueue_api/roles.py:135-242 | Unknown actors, roles and assignments change nothing, and revoking one grant changes that grant alone. |
| Roles.RunsConferExactly | apps/api/src/agenticqueue_api/roles.py:135-242 | In every run of assignments and revocations, through expiry changes, a live assignment confers exactly its role's capabilities and any other none. |
| Roles.RunsStaySound | apps/api/src/agenticqueue_api/roles.py:69-242 | With time moving forward at most one assignment per actor and role is live, also when single grants are revoked in between. |
| Roles.AssignRestores | apps/api/src/agenticqueue_api/roles.py:135-193 | Assigning a role again restores grants of it that were revoked one by one. |
| Roles.RoleBook.AssignRole | apps/api/src/agenticqueue_api/roles.py:135-193 | Assigning in place is the assign step: reuse or create, move expiry, sync grants. |
| Roles.RoleBook.RevokeAssignment | apps/api/src/agenticqueue_api/roles.py:213-242 | Revoking in place is the revoke step: the assignment and each of its standing grants end together. |

## Left out

- Routing, middleware, authentication, MCP and command-line wrappers, HTTP clients, React rendering, configuration parsing.
- SQL execution, row locks, LISTEN/NOTIFY delivery and threads: each transaction or lock-held block is one atomic step. The prefetch executor is not modelled.
- Which of several claimable tasks `claim_next` picks (priority, labels, locked rows): a claim step names its task. `reclaim_claim` (repo/queue.py:228-266) has no caller in the API and is not a step.
- Edges, contracts and policies that change in the middle of a run, and with them PATCH, creation and deletion of rows other than the creation of runs; the theorems hold for a fixed graph, contract and policy, and for run rows that are not patched or deleted. `_validate_patch` (crud.py:474-504) keeps lifecycle, managed and immutable fields out of a PATCH; stating that would only repeat it.
- Rows that a submission creates besides its run: artifacts and learning drafts; the text of drafts (draft.py:333-500) is not modelled. Messages, notes and details of audit entries are left out, and so are audit entries for denied capabilities.
- The text of checklist notes: it is computed and stored, but nothing is stated about it.
- Individual DoD check handlers: an arbitrary function from a check to its outcome. A submission's schema check is a number of issues.
- SHA-256, uuid5, base64url and JSON text: the digest is any function of the previous hash and the rendered row, injective on the inputs at hand where a theorem needs it; stored payloads are decoded JSON values. The time zone of the database session, in which the digest renders `created_at`, is the same throughout.
- Embedding arithmetic: similarity is any symmetric function. Embeddings filled in lazily for old rows are present from the start.
- Draft patches are given as the whole new payload; a patch that the schema refuses is not modelled.
- `flag_expired_candidates` (lifecycle.py:84-107): it writes audit rows only.
- Learnings and role assignments are numbered in creation order; ties of `created_at` are broken by that number.
- Scopes attached to role grants and who granted them: no guard reads them here.
- Collection of seed edges and cards from work items, decisions and outputs, and their duplicates (graph-view.tsx:773-951). Edges may be any list; targets are nonempty names.
- Column order of cards (graph-view.tsx:1209-1229) is an arbitrary rearrangement.
- The layout and the response cache of pipelines-view.tsx (757-913): the same level search and a smaller cache of the same kind.
- Cache capacity is at least 1, and time in cache events is a real number; configuration defaults are left out.
- Digits in retry overrides are the ASCII ones; autonomy tiers are plain integers.
- `wait_for_prefetch`, `schedule_prefetch` and listener errors of the packet cache.
