# NOVU back end: verified models

Dafny models of the stateful parts of the NOVU construction back end and proofs about them. A class stands for an
object or a store that the program changes in place; its methods are tied to functions of the old state, and the
theorems are lemmas about those functions over every input, every run or every interleaving.

| files | system part |
|---|---|
| Transitions, CaseTables, CaseEffects, CaseActions, CaseWalks, CaseRuns, CaseRecords, CaseTenants, CaseGuards, CaseWitnesses | the case workflow: status machine, two-phase effects, one transaction per action, runs of many sessions, what a commit writes down, isolation of tenants, the evidence freeze and the pricing gate |
| OfferBudget, OfferLedger, OfferAdmission | AI token budget: reservation, recording, release, expiry sweep; which reservations succeed |
| OfferPipeline, OfferRuns, OfferResults | offer jobs: claim, fencing by lease version, retries, reconciler; what each transaction writes and announces |
| OfferBooks | workers and budget together |
| RecoveryManifest, RecoveryRestore, RecoverySnapshot, RestoreSample | media recovery: version-pinned manifest, restore into an isolated bucket, whether the manifest is a snapshot, sampling afterwards |
| AccountLimiter | login throttle in Redis |
| AuditDenials, AuditTrail, AuditRoutes | audit: flood limit, transactional rows, request names |
| ResetTokens | the migration that hashes stored reset tokens |
| MarkdownBlocks, MarkdownWriting | Markdown grouping of the PDF script, and writing as its inverse |
| PipelineContracts | staged vision results and their flat form |
| Basics, Text | Option, Result, strings |

`dafny verify dfyconfig.toml` checks everything.

## Where the code and its promises differ

Each of these is a theorem here; the code is modelled as it is.

- Case actions read the project without a lock and write it unconditionally. Two sessions that loaded the same project
  both commit: `CaseWitnesses.RaceIsReachable`. Histories stay walks if and only if no commit is stale
  (`CaseRuns.WalkKeptIffUpToDate` for one commit, `CaseRuns.WalksIffSerial` for runs). What survives staleness is
  `CaseRuns.BooksKept`.
- "Sent" does not imply "approved": not on the worker fast path, and not when a proposal arrives after the approval
  (`CaseWitnesses.FastPathSendsUnapproved`, `CaseWitnesses.LateProposalSentUnapproved`). The exact condition is
  `CaseGuards.PricedIff` for one step, `CaseGuards.SentImpliesApprovedIff` for runs; without stale commits these are the
  only two ways (`CaseGuards.OnlyTheFastPath`).
- The CHECK of migration 0016 does not admit 'approved', so approving a project that has a proposal always aborts
  (`CaseGuards.ApprovalCommitsIff`, `CaseGuards.CheckForbidsApproval`). The admitted values are a parameter.
- The evidence of a locked case is not frozen. `assert_unlocked` is defined and called nowhere: photo uploads look at
  no status, and the routes that change a selection refuse another set of statuses, without `analyzing`, on a project
  read beforehand. `CaseWitnesses.UploadThaws`, `CaseWitnesses.SelectionThaws` and `CaseWitnesses.StaleGuardThaws` are
  runs in which evidence changes under a lock; `CaseWitnesses.StaleCommitThaws` is one in which every write is guarded
  and fresh, but a stale commit locks a case whose content was never analysed. The exact condition is
  `CaseGuards.FreezeIff` for one step and `CaseGuards.EvidenceFrozenIff` for runs; `CaseGuards.CarefulRunsFreeze` says
  what would be enough. The lock lets archived and cancelled projects through, as the code does.
- `reserve()` calls itself idempotent, but charges the counter again for a job that already has a row
  (`OfferLedger.RetryLeaks`); recording after the sweeper has expired the row undercounts
  (`OfferLedger.LateRecordUndercounts`). `OfferLedger.ConservedIffSound` gives the exact condition per operation,
  `OfferBooks.BooksBrokenIff` per worker step. The reconciler's own requeue breaks the books every time
  (`OfferBooks.RequeuedJobOvercharges`).
- Sweeper and reconciler catch the error of one row and go on, but in PostgreSQL that error has aborted the
  transaction: nothing of the pass is kept, though its rows are counted (`OfferBudget.BudgetStore.SweepOnce`,
  `OfferPipeline.OfferRepository.ReconcileExpiredLeases`).
- One agent run per job means that a retry of the same job can never complete once an earlier attempt inserted its run
  (`OfferRuns.ClaimCanFinishIff`). Rejected output is recorded with an outcome 'validation_error' that migration 0048
  does not admit, so the worker stops there: the job gets no result ever, and is not failed either
  (`OfferRuns.RejectedJob`).
- Poison detection never decides for a job of at most three retries (`OfferRuns.PoisonDecidesIff`).
- Claims and results overwrite the request's status whatever it is, a cancelled one included, and every retry goes
  from processing back to queued against the request's transition table (`OfferRuns.RequestWritesConformIff`); the
  reconciler spares terminal requests, but announces their failure all the same
  (`OfferResults.AnnouncedIsTrueIff`, `OfferResults.FalseFailureAnnounced`).
- The migration of reset tokens takes any 64 hexadecimal digits for a digest, so a raw token of that form would lose its
  link (`ResetTokens.RawLinkRedeemsIff`); the tokens the service makes have 43 characters.
- The exported manifest always declares its snapshot consistent. `RecoverySnapshot.SnapshotConsistentIff` says when
  it is, `RecoverySnapshot.ExportDuringRewrites` is an export of which it is not true.
- The login window restarts at each failure, so it is not the documented sliding window.
  `AccountLimiter.SlidingWindowIff` says when the two agree, `AccountLimiter.SpreadOutFailuresThrottle` is a run on
  which they do not.
- A failing operational audit write is meant not to disturb its caller, but drops the caller's staged changes
  (`AuditTrail.OperationalWriteKeepsChangesIff`); a write for another user makes later rows of the request lose the
  impersonator (`AuditTrail.ImpersonatorLostIff`).
- A staged result whose mapping has a unit of its own loses it in the flat form (`PipelineContracts.RoundTripIff`).

## Model

| member | source | states |
|---|---|---|
| Transitions.LockedBoundary | python-backend/app/case_workflow/transitions.py:51-64 | the locked set is entered only by intake to analyzing and left only to draft, archived or cancelled; no edge leaves a terminal status |
| Transitions.RegistryExact | python-backend/app/case_workflow/transitions.py:85-103 | the human registry names exactly the allowed edges minus the two worker edges, and its action targets the status it is filed under |
| Transitions.MenuExact | python-backend/app/case_workflow/transitions.py:116-130 | manager roles are offered exactly the allowed edges minus the two worker edges, others nothing; every offered action targets its status and is accepted by apply_transition; the menu is strictly ranked |
| Transitions.MenuIgnoresIterationOrder | python-backend/app/case_workflow/transitions.py:116-130 | any two iteration orders of the target set give the same menu |
| Transitions.SortIsStrict | python-backend/app/case_workflow/transitions.py:105-130 | sorting entries of distinct rank gives a strictly ranked sequence with the same members |
| Transitions.StrictOrderUnique | python-backend/app/case_workflow/transitions.py:105-130 | two strictly ranked sequences with the same members are equal |
| Transitions.StatusTextRoundTrip | python-backend/app/case_workflow/transitions.py:51-68 | each listed status and its text determine each other, and the text has no space around it |
| Transitions.MenuLaidOut | python-backend/app/case_workflow/transitions.py:85-130 | a menu goes forward first, then back to draft, cancelling last; exactly the last two ask for a reason |
| CaseTables.Session.ExecutePricingLock | python-backend/app/case_workflow/action_effects.py:189-198 | the UPDATE raises exactly when the project has proposals and the CHECK does not admit 'approved' |
| CaseTables.Session.Commit | python-backend/app/case_workflow/case_actions.py:84-116 | staged rows, project fields and pricing lock become durable together, or nothing does; primary keys decide |
| CaseTables.ApplyTransition | python-backend/app/case_workflow/transitions.py:172-237 | a refused transition changes nothing; an accepted one sets the three fields and stages one history row from the loaded status |
| CaseEffects.EffectRegistry.RegisterBefore | python-backend/app/case_workflow/effects.py:58-76 | the two names are stripped; a pair outside the table is refused, any other gets the effect appended under its edge |
| CaseEffects.EffectRegistry.RegisterAfter | python-backend/app/case_workflow/effects.py:79-86 | as above for the second phase |
| CaseEffects.KeyOfNames | python-backend/app/case_workflow/effects.py:58-66 | a name registers the edge it names, with or without space around it |
| CaseEffects.LoadActionEffects | python-backend/app/case_workflow/action_effects.py:61-306 | importing the effects registers exactly the effects of the five edges, in source order, and none on analyzing to quote_ready |
| CaseEffects.EffectContext.RunBeforeEffect | python-backend/app/case_workflow/action_effects.py:61-87 | each effect stages its rows and leaves their ids in the context; only the pricing lock can raise |
| CaseEffects.EffectContext.RunBeforeCommit | python-backend/app/case_workflow/effects.py:89-93 | raises exactly if some effect fails or the CHECK objects; otherwise every effect of the edge has run, in order |
| CaseEffects.EffectContext.RunAfterEffect | python-backend/app/case_workflow/action_effects.py:90-142 | sends the message the context allows, or nothing without a queue, an id or a delivery |
| CaseEffects.EffectContext.RunAfterCommit | python-backend/app/case_workflow/effects.py:96-110 | every effect of the edge gets its turn whatever the others raised |
| CaseEffects.HandOffComplete | python-backend/app/case_workflow/action_effects.py:90-142 | over the two phases every id is handed over: the missing-id returns and fresh-uuid fallbacks never happen for the registered effects |
| CaseActions.FlushIsLanded | python-backend/app/case_workflow/case_actions.py:84-116 | flushing history row and effect rows one by one gives the per-edge table contents, and is possible exactly if each drawn key is free |
| CaseActions.CaseActionService.GetProject | python-backend/app/case_workflow/case_actions.py:62-64 | a project is found exactly if it exists in the organisation asked for; the object is a copy of the whole row at that moment, no lock |
| CaseActions.CaseActionService.TransitionAndReturn | python-backend/app/case_workflow/case_actions.py:66-119 | commits exactly if the edge from the loaded status is allowed, no before-effect fails, the connection holds and the keys are free; then tables and messages are those of the edge; otherwise tables and queue are untouched |
| CaseActions.CaseActionService.CommitAndNotify | python-backend/app/case_workflow/case_actions.py:84-116 | after-effects run only behind a commit and cannot undo it |
| CaseActions.CaseActionService.Perform | python-backend/app/case_workflow/case_actions.py:125-316 | a whole action ends in exactly one of not found, no proposal for send_quote, refused, aborted or committed, each with its condition; every outcome but the last leaves tables and queue as they were |
| CaseRecords.CommitIsSigned | python-backend/app/case_workflow/transitions.py:197-230 | a commit moves and signs its own project row and no other, and adds one history row that says from where, to where, by whom, why and when |
| CaseRecords.CommitAddsRows | python-backend/app/case_workflow/action_effects.py:61-188 | starting the analysis queues one job in the caller's name and one event; the worker's proposal adds one event; no other action adds either |
| CaseRecords.CommitAddsExports | python-backend/app/case_workflow/action_effects.py:206-275 | sending a quote and completing a case ask for one document each, by its own name, kept thirty days; no other action does |
| CaseRecords.CommitPrices | python-backend/app/case_workflow/action_effects.py:188-198 | a commit from proposal_ready to quote_ready approves every proposal of its project and no other; no other commit touches one |
| CaseRecords.CommitSends | python-backend/app/case_workflow/action_effects.py:90-306 | every message of a commit is about its project and carries the caller's organisation; superadmin rights exactly for a superadmin; a live event tells the new status |
| CaseRecords.CommitDelivers | python-backend/app/case_workflow/action_effects.py:90-306 | with a queue that refuses nothing, the exact messages of each action, with the ids of the rows just written |
| CaseRecords.SentHasProposal | python-backend/app/case_workflow/case_actions.py:185-218 | in every run, stale commits included, a project that was ever sent has a proposal |
| CaseRecords.RowRepeatsHistory | python-backend/app/case_workflow/transitions.py:197-230 | in every run, stale commits included, each project row repeats status, moment and actor of its last history row |
| CaseTenants.LoadOpensIff | python-backend/app/repositories/project_repository.py:82-94 | a load in the name of an organisation finds the project if and only if it is that organisation's |
| CaseTenants.OutcomeIff | python-backend/app/case_workflow/case_actions.py:66-119 | a whole action is not found if and only if the project is missing or another organisation's, and lacks a proposal if and only if no row names the project |
| CaseTenants.TenantIsolation | python-backend/app/repositories/project_repository.py:82-94 | over all runs: while nobody loads a project in its own organisation's name or in nobody's, its row, content, history, jobs, events, exports and messages stay exactly what they were |
| CaseTenants.MessagesCarryOwnOrg | python-backend/app/case_workflow/action_effects.py:90-142 | in every run each event row carries its project's organisation, and each message that one or none |
| CaseTenants.WorkerFindsTheProject | python-backend/app/case_workflow/action_effects.py:90-142 | so a worker that loads the project in a message's name finds it |
| CaseWalks.WalkLength | python-backend/app/case_workflow/transitions.py:51-60 | a walk from draft with r returns has at most 6 (r + 1) edges |
| CaseWalks.WalkLengthTight | python-backend/app/case_workflow/transitions.py:51-60 | for every r a walk reaches that bound |
| CaseWalks.AllowedIff | python-backend/app/case_workflow/transitions.py:51-60 | from a status that is not terminal: one step on, back to draft, or cancelled; and the worker may skip the review |
| CaseWalks.NoReturnTerminates | python-backend/app/case_workflow/transitions.py:51-60 | without a return the rank climbs at every edge, from any start |
| CaseWalks.EdgeBalance | python-backend/app/case_workflow/transitions.py:197-230 | entries minus exits of any status are [current] minus [initial] |
| CaseWalks.TerminalAbsorbs | python-backend/app/case_workflow/transitions.py:66 | no walk leaves a terminal status, and it enters one only as its end |
| CaseRuns.BooksKept | python-backend/app/case_workflow/action_effects.py:61-306 | in every run of interleaved, failing actions: per project one creation row, and jobs, analysis.started, proposal.ready, quote-pdf and case-zip rows equal the committed edges that create them; keys are distinct; every message names a committed row, each row at most once |
| CaseRuns.NewWiresNewRows | python-backend/app/case_workflow/action_effects.py:90-142 | a message names a row of the very commit it follows, one that did not exist before |
| CaseRuns.WalkKeptIffUpToDate | python-backend/app/case_workflow/transitions.py:197-230 | a commit keeps all histories walks if and only if the status it loaded was still the durable one |
| CaseRuns.WalksIffSerial | python-backend/app/case_workflow/transitions.py:197-230 | over all runs: each project's history is a walk of allowed edges from draft to its status in every state, if and only if no commit is stale |
| CaseRuns.HistoryIsWalk | python-backend/app/case_workflow/transitions.py:197-230 | the last state of a run without stale commits |
| CaseRuns.OneCaseZip | python-backend/app/case_workflow/action_effects.py:260-273 | then a project has at most one case-zip export, and one exactly if it is archived |
| CaseGuards.FreezeIff | python-backend/app/case_workflow/transitions.py:149-160 | one step, both ways, stale commits and writes under any guard included: a project that while locked has the content its analysis started with stays so if and only if the step neither commits into a locked status, other than by starting the analysis, nor writes into a locked project, with other content; one that is not so becomes so if and only if the step is one of the ways back |
| CaseGuards.EvidenceFrozenIff | python-backend/app/case_workflow/transitions.py:149-160 | over all runs: every locked project has the content its analysis started with in every state, if and only if no step thaws one |
| CaseGuards.CarefulRunsFreeze | python-backend/app/case_workflow/transitions.py:149-160 | that is enough: every write guarded by assert_unlocked on the durable status, and no commit stale |
| CaseGuards.GuardFreezesIff | python-backend/app/case_workflow/transitions.py:149-160 | a guard keeps the freeze against writers that check the durable status if and only if it refuses every locked status |
| CaseGuards.GuardsInUseMiss | python-backend/app/api/routes/measurements.py:17-19 | neither no guard at all nor the selection guard does |
| CaseWitnesses.UploadThaws | python-backend/app/services/photo_service.py:287-408 | a reachable run: a photo uploaded into a case that is being analysed |
| CaseWitnesses.SelectionThaws | python-backend/app/api/routes/measurements.py:105-118 | a reachable run: a selection changed, under its guard, in a case that is being analysed |
| CaseWitnesses.StaleGuardThaws | python-backend/app/api/routes/analysis_jobs.py:172-191 | a reachable run: a guard on all locked statuses passes on a status read before the analysis started |
| CaseWitnesses.StaleCommitThaws | python-backend/app/case_workflow/case_actions.py:66-119 | a reachable run with every write guarded and fresh: a stale worker commit locks content that was never analysed |
| CaseGuards.PricedIff | python-backend/app/case_workflow/action_effects.py:188-198 | one step, both ways, stale commits included: a priced project (past the gate only with every proposal approved) stays so if and only if the step is not a commit past the gate other than the approval, nor a new proposal past it, leaving something unapproved; one that is not becomes so if and only if it is approved or goes back before the gate |
| CaseGuards.OnlyTheFastPath | python-backend/app/case_workflow/action_effects.py:188-198 | without stale commits the fast path is the only such commit |
| CaseGuards.SentImpliesApprovedIff | python-backend/app/case_workflow/action_effects.py:188-198 | over all runs: no project is ever past the gate with an unapproved proposal if and only if no step is one of those |
| CaseGuards.ReachableWorlds | python-backend/app/case_workflow/case_actions.py:66-119 | from an empty database, over every run: the books are kept, and walks, freeze and pricing hold throughout exactly under the condition of each |
| CaseGuards.ApprovalCommitsIff | python-backend/alembic/versions/20260326_0016_add_status_check_constraints.py:50-54 | an approval commits if and only if the CHECK admits 'approved' or the project has no proposal, and nothing else fails |
| CaseGuards.CheckForbidsApproval | python-backend/alembic/versions/20260326_0016_add_status_check_constraints.py:50-54 | under a CHECK without 'approved' no proposal is ever approved, in any run |
| CaseWitnesses.StaleStartTwice | python-backend/app/repositories/project_repository.py:82-94 | two sessions that loaded the same intake project both commit start_analysis: two more jobs, a history that is no walk |
| CaseWitnesses.RaceIsReachable | python-backend/app/case_workflow/case_actions.py:145-163 | that race is reachable from an empty database |
| CaseWitnesses.FastPathSendsUnapproved | python-backend/app/case_workflow/action_effects.py:188-198 | the worker fast path reaches sent, serially, with a proposal nobody approved |
| CaseWitnesses.LateProposalSentUnapproved | python-backend/app/case_workflow/case_actions.py:185-218 | so does the reviewed path when a proposal is added after the approval: send_quote asks only whether one exists |
| CaseWitnesses.RunConcat | python-backend/app/case_workflow/case_actions.py:66-119 | runs compose, and so does their seriality |
| OfferBudget.BudgetStore.Reserve | python-backend/app/offer_processing/budget.py:77-146 | for any estimate: admitted exactly if the budget, by default 0 of 200000 used under a hard limit, is soft or used plus estimate is at most the limit; the counter is charged even when the job already has a row |
| OfferBudget.BudgetStore.RecordActual | python-backend/app/offer_processing/budget.py:152-186 | the counter moves by actual minus estimated and the cost is added, whatever the row's status; only a reserved row becomes consumed |
| OfferBudget.BudgetStore.Release | python-backend/app/offer_processing/budget.py:192-227 | only a reserved row is credited back |
| OfferBudget.BudgetStore.ResetDailyCounter | python-backend/app/offer_processing/budget.py:233-244 | the counter of one organisation goes to zero, rows stay |
| OfferBudget.BudgetStore.SweepOnce | python-backend/app/offer_processing/budget_sweeper.py:79-137 | the loop over the selected rows equals the row-by-row specification; if a statement raises, nothing is kept although the rows before it are counted |
| OfferBudget.SelectedStale | python-backend/app/offer_processing/budget_sweeper.py:82-95 | the selection holds only stale unlocked rows, none twice, none older left out, and all of them when fewer than two hundred |
| OfferBudget.SweepLeaves | python-backend/app/offer_processing/budget_sweeper.py:100-122 | partway through, exactly the rows of the jobs handled so far have expired and the next is untouched |
| OfferLedger.ConservedIffSound | python-backend/alembic/versions/20260527_0052_create_ai_budget_reservations.py:9-22 | from balanced books any operation leaves balanced books if and only if its guard holds: no second reservation of a job, a recording only for a reserved row and with its estimate, no reset of a counter in use (with the cases where the clamp hides it) |
| OfferAdmission.HardLimitAdmits | python-backend/app/offer_processing/budget.py:93-104 | reservations of one estimate for different new jobs: under a hard limit the first floor((limit - used) / estimate) are admitted, the one that reaches the limit exactly included, and the rest refused without a trace |
| OfferAdmission.SoftBudgetNeverRefuses | python-backend/app/offer_processing/budget.py:93-104 | under a soft limit all are admitted, whatever is used already |
| OfferAdmission.HundredJobsADay | python-backend/app/offer_processing/budget.py:60-104 | a new organisation gets exactly its first hundred jobs of 2000 tokens |
| OfferAdmission.RoomIsExact | python-backend/app/offer_processing/budget.py:93-104 | n estimates and one more fit if and only if n is below that quotient |
| OfferAdmission.ReservationStaleIff | python-backend/app/offer_processing/budget_sweeper.py:79-95 | an admitted reservation is stale for a sweep if and only if more than fifteen minutes have passed |
| OfferLedger.BudgetConserved | python-backend/alembic/versions/20260527_0052_create_ai_budget_reservations.py:9-22 | every run of sound operations, in any interleaving, keeps each counter equal to reserved estimates plus recorded tokens |
| OfferLedger.SweepSettlesStale | python-backend/app/offer_processing/budget_sweeper.py:79-137 | one sweep keeps the books and leaves no stale reservation, when fewer than two hundred are stale and none is locked |
| OfferLedger.NothingLeaksPastTheSweep | python-backend/alembic/versions/20260527_0052_create_ai_budget_reservations.py:15-22 | when every reserved row is stale and one sweep can take them all, each counter is afterwards exactly the tokens recorded as consumed |
| OfferLedger.CostIsTheSum | python-backend/app/offer_processing/budget.py:152-186 | the month's cost is the sum of what was recorded, in every run |
| OfferLedger.LimitRespected | python-backend/alembic/versions/20260527_0050_create_organization_ai_budgets.py:3-5 | in every run a hard limit is exceeded at most by what recordings overran their estimates; reservations alone never cross it |
| OfferLedger.SettledOnce | python-backend/alembic/versions/20260527_0052_create_ai_budget_reservations.py:9-22 | each row leaves reserved at most once, so no estimate is credited twice |
| OfferLedger.RetryLeaks | python-backend/app/offer_processing/budget.py:99-146 | reserving again for a job that has a row charges an estimate that no releases and sweeps ever give back |
| OfferLedger.LateRecordUndercounts | python-backend/app/offer_processing/budget.py:152-186 | recording after the sweep leaves the counter one estimate below punctual recording (clamped at zero) |
| OfferBooks.BooksBrokenIff | python-backend/app/worker/offer_runner.py:261-285 | workers and budget together: a step breaks balanced books if and only if it is a second grant of a job or a late recording that the counter shows |
| OfferBooks.WorkersKeepTheBooks | python-backend/app/worker/offer_runner.py:203-487 | every run of workers, crashes, lost fences, failures, reconciler, service and sweeper in which no job is claimed twice and no row is swept under a living worker keeps the books |
| OfferBooks.StartInOrder | python-backend/alembic/versions/20260527_0052_create_ai_budget_reservations.py:9-22 | the empty system with unused budgets is a start for such runs |
| OfferBooks.StepInOrder | python-backend/app/worker/offer_runner.py:203-487 | one step of such a run keeps rows matched with workers, fencing and books |
| OfferBooks.EndOfWorker | python-backend/app/worker/offer_runner.py:261-487 | how a worker leaves its reservation: released by a reported failure or a crash before the answer, consumed with the recorded tokens by a result, still reserved after rejected output |
| OfferBooks.RequeuedJobOvercharges | python-backend/app/offer_processing/reconciler.py:253-275 | a job that the reconciler requeues after its reservation, claimed and granted again, leaves the counter one estimate too high, every time |
| OfferPipeline.OfferRepository.MarkJobRunning | python-backend/app/offer_processing/repository.py:166-188 | the lease version grows by one and the job runs, whatever its status was |
| OfferPipeline.OfferRepository.UpdateJobFenced | python-backend/app/offer_processing/repository.py:190-230 | the row changes exactly if the version is the expected one, and only in what is given |
| OfferPipeline.OfferRepository.CreateAgentRun | python-backend/alembic/versions/20260527_0053_idempotent_persist_and_poison_detection.py:37-43 | a second run of a job is refused |
| OfferPipeline.OfferRepository.Claim | python-backend/app/worker/offer_runner.py:222-252 | phase 1 as one transaction: version, running, lease, request to processing, event, and the remembered error fields; a missing job row gives version 1 and changes no job |
| OfferPipeline.OfferRepository.FailJob | python-backend/app/worker/offer_runner.py:648-762 | the retry and poison decision, and all of its writes, only with the lease; nothing for a missing row |
| OfferPipeline.OfferRepository.PersistResult | python-backend/app/worker/offer_runner.py:423-468 | run, job, request and event together with the lease; nothing at all without it or without a row |
| OfferPipeline.OfferRepository.SelectExpired | python-backend/app/offer_processing/reconciler.py:226-252 | the selection: running jobs with a request whose lease ended before the cutoff, unlocked, none twice, oldest first, at most fifty, and none older left out |
| OfferPipeline.OfferRepository.ReconcileExpiredLeases | python-backend/app/offer_processing/reconciler.py:215-422 | one pass equals the row-by-row specification over that selection; if a statement raises, nothing is kept although the rows before it are counted |
| OfferPipeline.PassSettlesExpired | python-backend/app/offer_processing/reconciler.py:215-422 | a pass over fewer than fifty rows, none locked, leaves no expired lease: each such job is requeued if retries remain and failed otherwise, and fenced off, every other job untouched |
| OfferRuns.InvKept | python-backend/alembic/versions/20260527_0051_harden_offer_pipeline.py:5-9 | the invariant of leases, runs and results over every interleaving of workers, crashes, reconciler and service |
| OfferRuns.FenceIff | python-backend/alembic/versions/20260527_0051_harden_offer_pipeline.py:5-9 | persisting changes the tables if and only if the worker's lease is current; a stale failure changes nothing, a current one settles the attempt |
| OfferRuns.LeasesGrow | python-backend/alembic/versions/20260527_0051_harden_offer_pipeline.py:5-9 | lease versions only grow, so each claim gets a version higher than any before |
| OfferRuns.LeasesStep | python-backend/alembic/versions/20260527_0051_harden_offer_pipeline.py:5-9 | no two workers ever hold the same job at the same version |
| OfferRuns.AtMostOneResult | python-backend/alembic/versions/20260527_0053_idempotent_persist_and_poison_detection.py:5-10 | in every run a job has at most one result, written by the creator of its only agent run |
| OfferRuns.RetryIsDeadEnd | python-backend/alembic/versions/20260527_0053_idempotent_persist_and_poison_detection.py:5-10 | once the lease has passed the creator of the run, no continuation gives the job a result |
| OfferRuns.OrphanIsDeadEnd | python-backend/alembic/versions/20260527_0053_idempotent_persist_and_poison_detection.py:5-10 | once the creator of a job's run is gone, no continuation gives the job a result or changes its run |
| OfferRuns.RejectedJob | python-backend/app/worker/offer_runner.py:396-436 | after rejected output the tables are as before, the job never gets a result, and its row stays as it is until it is claimed or reconciled |
| OfferRuns.ClaimCanFinishIff | python-backend/app/worker/offer_runner.py:319-331 | a freshly claimed job can still complete if and only if no earlier attempt inserted its agent run |
| OfferRuns.RequeuesBounded | python-backend/app/offer_processing/reconciler.py:253-275 | workers and reconciler together put a job back in the queue at most max_retries times |
| OfferRuns.PoisonDecidesIff | python-backend/app/offer_processing/domain.py:86-95 | poison detection overrules a retry exactly on the third equal retryable error with retries left; with max_retries of three or less it never decides |
| OfferRuns.RequestWritesConformIff | python-backend/app/offer_processing/domain.py:101-114 | from which request status each worker write follows the transition table: a claim only from queued, a result or final failure only from processing, a retry only from submitted or needs_more_info, so never from processing |
| OfferRuns.ReconcilerSparesTerminal | python-backend/app/offer_processing/reconciler.py:277-285 | the reconciler does not touch a terminal request |
| OfferResults.PersistSays | python-backend/app/worker/offer_runner.py:510-620 | an owned result completes the job, and request, run and last event say needs_review if and only if an offer was generated, needs_more_info if and only if data was insufficient; nothing else changes |
| OfferResults.FailSays | python-backend/app/worker/offer_runner.py:648-762 | an owned failure counts one retry and the streak of its error; queued again, silently, exactly if retryable, retries left and the streak below three; otherwise failed and announced |
| OfferResults.ClaimSays | python-backend/app/worker/offer_runner.py:222-252 | a claim runs the job under the next lease, which its ticket owns, moves the request to processing and announces it |
| OfferResults.ReconcileSays | python-backend/app/offer_processing/reconciler.py:253-375 | an expired job is queued again, silently, exactly if retries remain, otherwise failed and announced, under the next lease either way; the request follows unless it has ended |
| OfferResults.ResultsAreTold | python-backend/app/worker/offer_runner.py:510-620 | in every run a job has a result if and only if exactly one result was announced for it, and the announcement agrees with the outcome of its agent run |
| OfferResults.AnnouncedIsTrueIff | python-backend/app/offer_processing/reconciler.py:277-375 | every step announces at most one thing, and it is the status the request has from then on, except exactly when the reconciler gives up a job whose request is completed or cancelled |
| OfferResults.FalseFailureAnnounced | python-backend/app/offer_processing/reconciler.py:277-375 | such a run: a failure is announced of a request that stays cancelled |
| OfferResults.LeaseExpiresIff | python-backend/app/offer_processing/reconciler.py:215-252 | a claimed lease is expired for a pass if and only if two minutes have gone by since its end |
| OfferResults.TerminalIff | python-backend/app/offer_processing/domain.py:29-114 | the statuses the reconciler spares are those without an allowed move |
| RecoveryManifest.SortRefsOrdered | python-backend/scripts/export_s3_recovery_manifest.py:95-105 | sorting loses and repeats no reference and orders by key, source and record, so equal keys are side by side |
| RecoveryManifest.GroupReferencesByKey | python-backend/scripts/export_s3_recovery_manifest.py:110-114 | the groups are exactly the keys that occur, each with its references in list order |
| RecoveryManifest.KeysOfExact | python-backend/scripts/export_s3_recovery_manifest.py:136 | the keys in manifest order are exactly the referenced keys, strictly increasing |
| RecoveryManifest.BuildObjectManifest | python-backend/scripts/export_s3_recovery_manifest.py:127-168 | succeeds exactly if every key has a current version with a non-blank id at the moment of its head call; objects follow the sorted keys; the error names the first key that failed, and how |
| RecoveryManifest.ExportManifest | python-backend/scripts/export_s3_recovery_manifest.py:187-226 | reading the objects back in order gives the sorted reference list exactly, and the two counts are its length and the number of keys |
| RecoveryManifest.GroupsAreTheList | python-backend/scripts/export_s3_recovery_manifest.py:110-168 | the groups of ordered references, in key order, concatenate to the list |
| RecoveryManifest.GroupingLosesNothing | python-backend/scripts/export_s3_recovery_manifest.py:110-168 | the manifest's references are the loaded ones, nothing lost, repeated or reordered |
| RecoveryManifest.RowsAreNamed | python-backend/scripts/export_s3_recovery_manifest.py:75-105 | every photo and export row is named under its own key with its own organisation, project, id and kind |
| RecoveryManifest.OnlyRowsAreNamed | python-backend/scripts/export_s3_recovery_manifest.py:75-105 | every reference of the manifest is that of a photo or export row |
| RecoveryManifest.PinnableIff | python-backend/scripts/export_s3_recovery_manifest.py:137-158 | a key is pinned exactly if its last version is no delete marker and has an id that is not blank |
| RecoveryManifest.SortedBy | python-backend/scripts/export_s3_recovery_manifest.py:95-105 | the references ascend by key, within a key by source, within a source by record id |
| RecoveryRestore.RestoreOne | python-backend/scripts/restore_s3_media.py:71-97 | one round: which failure, and whether the copy was made, a copy call that raises after it took effect included |
| RecoveryRestore.RoundDecides | python-backend/scripts/restore_s3_media.py:69-106 | a round fails exactly when its own conditions fail, and a copy extends the prefix by exactly the next object |
| RecoveryRestore.FailureSays | python-backend/scripts/restore_s3_media.py:71-97 | which failure a round reports, each if and only if its own cause is the first to occur |
| RecoveryRestore.Restore | python-backend/scripts/restore_s3_media.py:55-108 | restores if and only if names differ and every round is good; on any abort the target is its old content plus copies of a prefix of the manifest, under keys it did not have |
| RecoveryRestore.HeadAfter | python-backend/scripts/restore_s3_media.py:69-92 | a key is present after n copies exactly if it was before or one of them made it |
| RecoveryRestore.AdditionsContent | python-backend/scripts/restore_s3_media.py:79-92 | each copied key ends with exactly the pinned bytes |
| RecoveryRestore.TargetObjectsUnchanged | python-backend/scripts/restore_s3_media.py:69-92 | objects the target had are version for version as they were |
| RecoveryRestore.PinSurvives | python-backend/scripts/restore_s3_media.py:79-88 | whatever newer versions the source gains, the pinned id still finds the exported version |
| RecoveryRestore.PointInTimeRecovery | python-backend/scripts/export_s3_recovery_manifest.py:127-168 | an exported manifest restores, and every referenced key has the bytes it had when the exporter read it |
| RecoveryRestore.Drill | python-backend/scripts/restore_s3_media.py:55-108 | the two programs composed, with writers at work throughout: export success implies restore success with those contents |
| RecoverySnapshot.SnapshotConsistentIff | python-backend/scripts/export_s3_recovery_manifest.py:208 | over a growing history of the source: the manifest pictures some instant if and only if no pinned version was covered before, or just when, another one was created |
| RecoverySnapshot.PicturedWhileCurrent | python-backend/scripts/export_s3_recovery_manifest.py:137-158 | a key is pictured exactly while its pinned version exists and is not covered |
| RecoverySnapshot.QuietExportIsConsistent | python-backend/scripts/export_s3_recovery_manifest.py:208 | if no referenced key is written between the first and the last head call, the declaration is true |
| RecoverySnapshot.NoInstantPictured | python-backend/scripts/export_s3_recovery_manifest.py:208 | one key rewritten, then the other, between their head calls: no instant ever looked like the manifest |
| RecoverySnapshot.ExportDuringRewrites | python-backend/scripts/export_s3_recovery_manifest.py:187-226 | that export goes through and declares itself consistent |
| AccountLimiter.Redis.IsAccountThrottled | python-backend/app/core/account_limiter.py:103-131 | answers for the normalised account at the moment of the attempt that got through; at most one retry, none without a shared client; own clients are closed on every path |
| AccountLimiter.Redis.RecordLoginFailure | python-backend/app/core/account_limiter.py:134-166 | which commands reach the server, and the error of the last attempt; a retry after an applied attempt counts twice |
| AccountLimiter.Redis.ResetLoginFailures | python-backend/app/core/account_limiter.py:169-197 | the same for the reset |
| AccountLimiter.ThrottledIff | python-backend/app/core/account_limiter.py:103-147 | throttled at t if and only if the account's last ten events are failures, each less than 900 s before the next and the last less than 900 s before t |
| AccountLimiter.CounterOfOwn | python-backend/app/core/account_limiter.py:134-147 | the live counter reaches k exactly if a live run of k failures ends the history |
| AccountLimiter.TenInsideAWindowThrottle | python-backend/app/core/account_limiter.py:29-31 | with a nondecreasing clock, ten unreset failures inside one window always throttle |
| AccountLimiter.RecentIsLast | python-backend/app/core/account_limiter.py:29-31 | the window holds k failures exactly when the last k events are failures and the first of them is recent |
| AccountLimiter.SlidingWindowIff | python-backend/app/core/account_limiter.py:29-31 | throttle and documented sliding window agree if and only if it is not so that the last ten events are failures that kept the counter alive and the first of them has left the window |
| AccountLimiter.FewFailuresNeverThrottle | python-backend/app/core/account_limiter.py:134-166 | fewer than ten since the last reset never do |
| AccountLimiter.OtherAccountsDoNotMatter | python-backend/app/core/account_limiter.py:52-54 | commands for other accounts change nothing |
| AccountLimiter.SpreadOutFailuresThrottle | python-backend/app/core/account_limiter.py:29-31 | a run on which they disagree: ten failures 899 s apart |
| AccountLimiter.KeyIgnoresCaseAndSpace | python-backend/app/core/account_limiter.py:52-54 | normalising an address twice gives the same key |
| AccountLimiter.SameKeyIff | python-backend/app/core/account_limiter.py:52-54 | two addresses share a counter if and only if, without white space around them, they are the same up to the case of letters |
| AccountLimiter.EmailDomainIs | python-backend/app/core/account_limiter.py:57-61 | an error names the part behind the last @ in small letters |
| AccountLimiter.RetriedIff | python-backend/app/core/account_limiter.py:80-82 | an error is retried without the shared client if and only if its message names the loop in one of two ways |
| AccountLimiter.BookedTwiceIff | python-backend/app/core/account_limiter.py:134-166 | one call books its command twice if and only if the shared client took it, lost the answer over its loop, and the retry's client took it again |
| AccountLimiter.PlainCall | python-backend/app/core/account_limiter.py:134-166 | without a failing shared client a call books its command at most once, and fails exactly if something did |
| AccountLimiter.RetryDecides | python-backend/app/core/account_limiter.py:134-166 | after a failing shared client the retry decides if the loop was to blame, and the first error stands otherwise |
| AuditDenials.DenialLog.LogCrossTenantDenied | python-backend/app/core/audit.py:120-159 | the in-place counter and the lines written equal the function of all denials so far |
| AuditDenials.LineDependsOnOwnMoments | python-backend/app/core/audit.py:135-159 | what a denial writes depends only on the moments of that user's own denials |
| AuditDenials.WindowWritesAtMostSix | python-backend/app/core/audit.py:135-159 | a window of n denials wrote min(n, 6) lines and lasts at most 60 s from its first denial |
| AuditDenials.WindowReads | python-backend/app/core/audit.py:135-159 | whatever was logged before, the denials of a new window are written as the first five in full, the sixth as a notice, and nothing more |
| AuditDenials.WindowsAreApart | python-backend/app/core/audit.py:138-139 | windows begin more than 60 s apart, and what they have written stays within six lines each |
| AuditDenials.FloodBound | python-backend/app/core/audit.py:120-159 | one user writes at most 6 ceil(T / 60) + 5 lines in any span of T > 0 seconds, and six at one moment, in any traffic |
| AuditDenials.FloodBoundReached | python-backend/app/core/audit.py:120-159 | for every T that bound is attained by denials through the log |
| AuditTrail.RowNamesTheUser | python-backend/app/core/audit.py:249-288 | the row names the user it was written for; where email, organisation and impersonator come from |
| AuditTrail.RowIsExactly | python-backend/app/core/audit.py:249-288 | email and organisation of a row in full: the request's, the record's, or what the request knows |
| AuditTrail.AuditWriter.EnrichAuditActor | python-backend/app/core/audit.py:249-288 | the actor given back, when the look-up raises, and when the request is rebound |
| AuditTrail.AuditWriter.WriteAuditLog | python-backend/app/core/audit.py:369-420 | raises exactly if it fails and the policy is security-critical; state as specified |
| AuditTrail.AuditWriter.CommitSecurityCriticalAudit | python-backend/app/core/audit.py:423-461 | an unregistered action is refused with nothing changed; otherwise returns normally exactly if staging and commit worked |
| AuditTrail.WriteIsAtomic | python-backend/app/core/audit.py:369-461 | staged changes and audit row become durable together or not at all; the metric counts each failure once |
| AuditTrail.NoChangeWithoutItsRow | python-backend/app/core/audit.py:423-461 | over any run of security-critical requests with any failures the durable changes and rows are those of the successful requests, pairwise and in order |
| AuditTrail.OperationalWriteKeepsChangesIff | python-backend/app/core/audit.py:369-420 | an operational write keeps its caller's staged changes if and only if it works, there were none, or the rollback raised too |
| AuditTrail.ImpersonatorLostIff | python-backend/app/core/audit.py:278-288 | after a write for another user a later row keeps the impersonator if and only if that user is not on record or has an empty id |
| AuditRoutes.SplitRender | python-backend/app/core/audit.py:170 | splitting a rendered path gives its segments back |
| AuditRoutes.ApartNeverBoth | python-backend/app/core/audit.py:173-179 | disjoint patterns never match one path |
| AuditRoutes.RowsAreApart | python-backend/app/core/audit.py:51-81 | any two rows of one method have disjoint patterns |
| AuditRoutes.LookUpIsTheMatch | python-backend/app/core/audit.py:172-188 | a row is the answer exactly if it is in the table and matches: the first match is the only match |
| AuditRoutes.OrderDoesNotMatter | python-backend/app/core/audit.py:162-194 | any reordering of any rows classifies every request alike |
| AuditRoutes.ClassifyUndoesRender | python-backend/app/core/audit.py:162-194 | a path rendered from any row with any slash-free ids is classified as that row, with its first segment and the id in second place |
| AuditRoutes.OnlyRendersAreNamed | python-backend/app/core/audit.py:172-194 | a row is found exactly for the renderings of rows; everything else gets the generic name |
| AuditRoutes.OthersAreNamedByTheirParts | python-backend/app/core/audit.py:190-194 | a path no row renders: its name cut at the dots is the method and all segments in order; type the first segment, id the second |
| MarkdownBlocks.BlockWriter.FlushParagraph | scripts/generate_pdf.py:67-73 | the paragraph buffer becomes one block, or nothing happens |
| MarkdownBlocks.BlockWriter.FlushList | scripts/generate_pdf.py:75-82 | the same for the list buffer |
| MarkdownBlocks.BlockWriter.Feed | scripts/generate_pdf.py:84-134 | one line of the loop advances the finished blocks and the open run as specified; the buffers are never both in use |
| MarkdownBlocks.MarkdownToBlocks | scripts/generate_pdf.py:84-139 | the loop's blocks are those of the document's maximal runs |
| MarkdownBlocks.StepKeepsGrouping | scripts/generate_pdf.py:84-134 | finishing and opening runs line by line preserves the grouping of the whole document |
| MarkdownBlocks.NothingLost | scripts/generate_pdf.py:84-139 | every line that is not blank is in exactly one block, in order, and every block is a run |
| MarkdownBlocks.CutAnywhere | scripts/generate_pdf.py:84-139 | the blocks of a document cut in two are the blocks of its parts, the two at the cut becoming one, the one followed by the other, exactly when the lines join |
| MarkdownWriting.SaysIff | scripts/generate_pdf.py:84-134 | for every line: it is read as blank, rule, heading, item or text if and only if it has the look of it, white space around it aside |
| MarkdownWriting.ItemSpellings | scripts/generate_pdf.py:117-131 | dash or star, space, text gives that item; digits, full stop, space, text the numbered one |
| MarkdownWriting.HeadingSpellings | scripts/generate_pdf.py:99-115 | one to three number signs, space, text gives that heading |
| MarkdownWriting.WritesIff | scripts/generate_pdf.py:84-139 | consecutive lines are read as one given block if and only if they are a way to write it |
| MarkdownWriting.ReadingUndoesWriting | scripts/generate_pdf.py:84-139 | any blocks, written in any way and set apart by blank lines, are read back exactly |
| MarkdownWriting.WhatIsReadIsWritten | scripts/generate_pdf.py:84-139 | every document writes the blocks it is read as, each by its own stretch of lines |
| MarkdownWriting.Reformatted | scripts/generate_pdf.py:84-139 | setting the blocks of a document apart by other blank lines leaves its blocks alone |
| MarkdownWriting.JoinHalves | scripts/generate_pdf.py:71-72 | joining puts one separator between any two neighbours and none elsewhere |
| ResetTokens.NewestUnused | python-backend/alembic/versions/20260329_0022_harden_password_reset_tokens.py:62-71 | the first pass names, for each user, the newest unused row: null read as now, the first on ties |
| ResetTokens.UpdateHitsOneRow | python-backend/alembic/versions/20260329_0022_harden_password_reset_tokens.py:73-87 | each UPDATE turns exactly its own row into its final form |
| ResetTokens.Upgrade | python-backend/alembic/versions/20260329_0022_harden_password_reset_tokens.py:48-106 | goes through if and only if the digest tells the stored tokens apart, and then leaves exactly the hardened table; otherwise the table is as before |
| ResetTokens.HardenedPromises | python-backend/alembic/versions/20260329_0022_harden_password_reset_tokens.py:8-11 | only lower-case digests are left; owners, ages and used marks stay; one unused row per user, the newest, so the partial unique index can be created |
| ResetTokens.HardenedTwice | python-backend/alembic/versions/20260329_0022_harden_password_reset_tokens.py:42-45 | running the passes again changes nothing |
| ResetTokens.DigestTwice | python-backend/alembic/versions/20260329_0022_harden_password_reset_tokens.py:37-45 | a digest is lower-case hexadecimal and its own digest |
| ResetTokens.TokenBecomes | python-backend/alembic/versions/20260329_0022_harden_password_reset_tokens.py:37-45 | a stored token that is not 64 hexadecimal digits becomes the hash of exactly what was stored; one that is keeps its digits, letters made small |
| ResetTokens.LinksStillRedeem | python-backend/app/repositories/token_repository.py:448-468 | after a migration that went through, a link sent out before finds exactly its own row |
| ResetTokens.RawLinkRedeemsIff | python-backend/app/repositories/token_repository.py:448-468 | a raw token is found by its own link if and only if it was not taken for a digest |
| ResetTokens.RefusedIff | python-backend/alembic/versions/20260329_0022_harden_password_reset_tokens.py:73-87 | the migration is refused exactly when two tokens would end up alike |
| ResetTokens.OlderIsUsedUp | python-backend/alembic/versions/20260329_0022_harden_password_reset_tokens.py:62-87 | of two unused rows of one user the older is used up, of two of one age the later read; a missing date counts as now |
| RestoreSample.Sampler.Add | python-backend/scripts/validate_restored_media.py:111-118 | adds unless missing, full or already named |
| RestoreSample.SelectReferenceSample | python-backend/scripts/validate_restored_media.py:102-133 | the selection is the first sample_size identities of leads, photos and exports |
| RestoreSample.SampleIsFull | python-backend/scripts/validate_restored_media.py:102-133 | no identity twice, none invented, as many as size and references allow |
| RestoreSample.SampleCoversEveryKind | python-backend/scripts/validate_restored_media.py:120-126 | three or more cover an original photo, a derived photo and an export, each if there is one |
| RestoreSample.LeadsComeFirst | python-backend/scripts/validate_restored_media.py:120-126 | smaller samples drop the leads from the end |
| RestoreSample.SampleIsInTheManifest | python-backend/scripts/validate_restored_media.py:102-133 | whatever is sampled is in the manifest of the same rows, under the same source, id, project and key |
| PipelineContracts.DecomposeFlattened | python-backend/app/ai/pipeline.py:132-180 | the flat form of any result decomposes, to exactly its normalised form |
| PipelineContracts.RoundTripIff | python-backend/app/ai/pipeline_contracts.py:150-174 | flattening and decomposing gives the result back, up to raw provider output, if and only if it is normal; in particular its two units agree |
| PipelineContracts.DecomposedIsNormal | python-backend/app/ai/pipeline.py:132-180 | whatever decomposes is normal, its stages refer to each other, and it carries its source |
| PipelineContracts.DecomposeIsIdempotent | python-backend/app/ai/pipeline.py:132-180 | decompose, flatten, decompose changes only the attached output; the flat form is then stable |
| PipelineContracts.EmptyOutput | python-backend/app/ai/pipeline.py:132-180 | an empty output decomposes to the defaults |
| PipelineContracts.QuantityIs | python-backend/app/ai/pipeline.py:160-171 | the quantity is the output's own, null included, and the area only if the output has none |
| PipelineContracts.QuantityOf | python-backend/app/ai/pipeline.py:160-195 | a quantity given as a truth value is one or zero, as a text the number it spells, as a list or dictionary nothing |
| PipelineContracts.TextsAreRead | python-backend/app/ai/pipeline.py:132-180 | each text and each list comes from its own entry of the output |
| PipelineContracts.ValuesAreRead | python-backend/app/ai/pipeline.py:132-180 | so does each value passed on as it is or as a number |
| PipelineContracts.DecomposeRaisesIff | python-backend/app/ai/pipeline.py:132-180 | decomposing raises if and only if confidence, a list or the attributes are given in a form that does not convert |
| PipelineContracts.FalsyIff | python-backend/app/ai/pipeline.py:132-180 | the values that count as missing |

## Left out

- Statements inside a transaction take effect at its commit, and a commit either happens or does not; lost acknowledgements of a database commit are not modelled.
- Sessions are modelled as load-then-finish; statement-level interleaving inside one transaction, isolation levels and deadlocks are not.
- CaseGuards.EvidenceFrozenIff: the evidence of a project is one value, and a write replaces it; which photo or selection changes is left out, and so is the check of the selection routes that no newer analysis result exists.
- CaseRuns.HistoryIsWalk: needs runs without stale commits, because it is false otherwise; the equivalence is CaseRuns.WalksIffSerial. Creator and moment of the creation row, and the duplication of projects, are left out.
- OfferLedger.BudgetConserved: within one counter period and for sound operations; a reset of a counter in use is excluded, because the code does not settle open rows then. Tokens are counted at the recorded amount, not at the estimate.
- OfferLedger.SweepSettlesStale: no row locked by another sweep and fewer than two hundred stale rows, because otherwise a sweep leaves some for the next.
- OfferBooks: the worker's default estimate; failures of the reservation transaction itself are crashes.
- OfferRuns: lease expiry by the clock (any running job may be reconciled at any time), the Redis queue, acknowledgements, heartbeats, the check for stuck requests and the outbox publisher; every claim of any job by any worker is allowed instead. A job keeps its numbers of retries, attempts and back-off delays are left out.
- OfferPipeline.OfferRepository.ReconcileExpiredLeases: the audit rows of the reconciler and the messages it sends afterwards are left out.
- RecoveryRestore.PointInTimeRecovery, RecoverySnapshot.SnapshotConsistentIff: the source only appends versions under fresh ids while the drill runs, as a versioned bucket without deletions of versions does; etag, timestamps and regions are not modelled.
- AccountLimiter: Redis may fail before or after applying a command, but commands take effect one at a time; log lines and the shared client's own life are left out.
- AuditTrail: ids, timestamps, IP addresses and the HTTP middleware; a commit that raises is taken not to have happened.
- AuditRoutes: paths behind the API prefix. Methods outside POST, PATCH, PUT and DELETE are not logged by the middleware and not modelled.
- MarkdownBlocks: lines as the program has them after splitting; tags, HTML escaping, inline bold and the page around the blocks.
- ResetTokens.Upgrade: SHA-256 is any function with lower-case hexadecimal results of 64 characters; the second index and the downgrade.
- PipelineContracts: floats are exact reals, conversions of odd values are parameters; the orchestrator, which only calls the stages and, unlike its comment, lets an extraction failure end the run.
- Text: white space and letter case are those of ASCII.
- The action methods' HTTP layer, authorisation, SSE, storage consistency checks and all other migrations.
