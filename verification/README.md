# Verified model of the research engine's control machinery

This project models how the local research engine decides what happens next, and proves what that
machinery guarantees over whole runs: the resumable research loop with its pauses and gates, the
lease-and-fence job scheduler, and the stateful algorithms around them (event bus, rate limiter,
circuit breaker, ids, chunker, quote verification, claim consolidation, evidence strength and layered
configuration). Where the code works by changing records step by step the model has a class or a loop
that does the same, proved equal to a specification function; the results about whole runs are lemmas
about those functions.

`dafny verify dfyconfig.toml` checks everything.

## How the files belong together

- **Research loop.** `ProjectStates` (life cycle table and project record) and `Manifests` (declared
  loops, stop conditions) are the ground. `LoopSemantics` says what a declared loop executes, turn by
  turn; `LoopRunner` is the runner as an object, equal to it. `PauseTransparency`, `CrashRestart`,
  `StopReasons`, `RunnerGates` and `StateWalk` hold the results. Handlers are an arbitrary environment that sees every visit so far.
- **Orchestrated runs.** `Orchestration` is the meaning of a project run with gates, questions, stop
  and pause requests; `Orchestrator` is the object. `RunSafety`, `GateOrder`, `RunStops`,
  `GateTransparency` and `UnsafeGates` hold the results. Decisions of planners, queries, convergence and users are an arbitrary world that
  may depend on all work done so far.
- **Scheduler.** `Scheduling` has every storage and scheduler call as one atomic step over job and task
  rows, and a run is any sequence of steps, so any interleaving of workers; `Schedulers` has the
  database and scheduler objects. `TaskFencing`, `TaskRetries`, `DependencyOrder`, `JobSafety`,
  `JobOutcomes` and `JobLimits` hold the results.
- **Events.** `EventDelivery` interleaves publishers and consumers at the level of single queue and lock
  operations; `EventAccounting` says what becomes of every addressed event, `EventOrder` is about
  order, `EventBuses` has the bus object.
- **Algorithms.** `TokenBuckets`, `CircuitBreakers` and `Failovers`, `Ids`, `Chunking`; `Quotes` with
  `QuoteParts`, `QuoteWords` and `QuoteWindows`; `ClaimSupport`; `Grounding` and `ClaimConfidence`;
  `Strength` with `Penalties` and `Corroboration`; `Configs` and `Overrides`; `Options` and `Texts` are
  shared helpers.

## Where the code does not do what it says

Each of these is proved of the model, with a concrete run or with the exact condition.

- A pause after `evaluate_convergence` loses the convergence it called for, and the whole run ends
  otherwise (`StateWalk.AcceptedTransparentExactlyWhen`).
- Declared gates named like another review gate are taken for that gate on resume, and a project that
  comes to one does other work (`UnsafeGates.TransparentExactlyWhen`).
- A project killed in the middle of a cycle, or failed, is never taken up by `resume`, although the
  documentation calls checkpoints resumable (`RunSafety.CompletesExactlyWhen`); a stop requested there
  is an illegal move (`RunSafety.IllegalExactlyFrom`).
- The static walk accepts manifests that raise in their second iteration
  (`StateWalk.SecondIterationMayBeIllegal`).
- The cap on running jobs fails once there are more than 200 job rows (`JobLimits.CapExactlyWhen`), and
  with the default cap of one a resumed job never runs again (`JobLimits.ResumedStartsExactlyWhen`).
- Recovery looks at the lease saved with the claim and not at the renewed one, so it can requeue the task
  of a live worker (`TaskFencing.RecoveryIgnoresRenewals`). A job whose tasks were all held and overdue
  keeps its status although nobody holds any of them afterwards (`TaskFencing.RecoveryLeavesHolders`).
- A manual retry hands out the old fences again (`TaskFencing.RetriedFencePowerExactlyWhen`). Resuming
  a paused job, or restarting while a paused one was paused again, lets tasks out before the dependencies
  of their job have completed, and so does a manual retry (`DependencyOrder.EarlyExactlyWhen`).
- A subscriber registered for a kind twice, or for a kind and for all, receives events twice
  (`EventOrder.InOrderExactlyWhen`).
- Half open is documented as one probe, but any number of calls get through
  (`CircuitBreakers.ProbesUnlimited`).
- A queued job one of whose tasks was claimed already is paused at once while the task is worked on
  (`JobOutcomes.PausesFreeExactlyWhen`).
- The windows in which near matches are looked for may miss a stretch of 40 words or more
  (`QuoteWindows.AllReachedExactlyWhen`).
- Short parts of a quote with dots are not verified although each part is said to be
  (`QuoteParts.EveryPartFoundExactlyWhen`).
- A further defect of a claim can raise its support verdict (`ClaimSupport.RaisesExactlyWhen`).
- Consolidation lets a swarm of poor sources make a claim certain
  (`Grounding.SwarmsAreCertainExactlyWhen`), and a swarm of weak or partially supporting items can outvote
  a primary study (`Strength.PrimaryOutvotedExactlyWhen`).
- Bounds are checked on a copy that reads flags and texts as numbers, and pass null values: what resolves
  may be no number at all (`Configs.EffectiveWithinExactlyWhen`). Negative overlaps pass as well
  (`Configs.BoundsMissNegatives`).

## Model

| member | source | states |
|---|---|---|
| ProjectStates.Project.Transition | src/research_engine/core/state_machine.py:62-71 | a requested move is made exactly when the project is already there or the table allows it; a refused one raises and changes nothing of the record |
| Manifests.EvaluateStopConditions | src/research_engine/engines/runner.py:19-51 | stops exactly when some declared condition on a metric that is given holds for the iteration; the one reported is the first such condition in declared order |
| Manifests.FiresFrom | src/research_engine/engines/runner.py:25-45 | a condition waits for its first iteration and does not depend on the iteration from then on; one on a metric that is not given never fires |
| Manifests.ComparisonLaws | src/research_engine/engines/runner.py:35-45 | the five comparisons are the orders they are named after: each is the denial or the combination of others, and the weak ones hold of equal values |
| Manifests.GateNames | src/research_engine/engines/runner.py:99 | a named gate waits under its name, and gates without one under a name of their own for every step |
| PauseTransparency.PausesAreTransparent | src/research_engine/engines/runner.py:92-132 | pausing and resuming after every yield visits exactly the steps of the manifest without pauses, with the same state, stop reason and iteration count |
| PauseTransparency.TransparentExactlyWhen | src/research_engine/engines/runner.py:215-302 | where every declared pause can be taken, whole runs of a fresh project end the same with and without the pauses, for all handlers that leave their step's state, exactly when no pause follows evaluate_convergence inside the iterations |
| PauseTransparency.ConvergenceIsLost | src/research_engine/engines/runner.py:257-263 | with a pause after evaluate_convergence the whole run of a fresh project raises or names a stop reason of its own, where without the pause it converges and finishes |
| PauseTransparency.UnpausableRaises | src/research_engine/engines/runner.py:92-102 | wherever a run visits a step with a declared pause whose state may not move to PAUSED, it raises unless the handler itself refuses or pauses |
| PauseTransparency.YieldsForward | src/research_engine/engines/runner.py:113-132 | wherever a run yields, resuming continues strictly further on, so a driven run ends |
| PauseTransparency.CompletedIsAbsorbing | src/research_engine/engines/runner.py:217-222 | a completed project stays completed: running or resuming it again executes nothing and changes nothing |
| CrashRestart.CrashesSkipNothing | src/research_engine/engines/runner.py:75-90 | over any number of runs, pauses, crashes and reloads no declared step is skipped; a visit is followed by another one to the same step exactly when a crash interrupted it, or is still to be because the next run starts with that step; a finished session has come to the last declared step |
| CrashRestart.RunInStep | src/research_engine/engines/runner.py:215-302 | one run from a restartable cursor repeats only the step that was interrupted; one that raises after a visit leaves the cursor at the very step it interrupted, one that pauses is resumed behind the paused step, one that finishes has visited the last declared step |
| CrashRestart.VisitIsLast | src/research_engine/engines/runner.py:224-231 | the cursor is saved before the handler is called, so a step that raises or goes on is the one the saved cursor names and the next run starts with |
| CrashRestart.TurnCompletes | src/research_engine/engines/runner.py:287-302 | a run finishes only behind the last step of the synthesis, or behind the iterations where no synthesis is declared |
| LoopRunners.LoopRunner.SaveCursor | src/research_engine/engines/runner.py:75-90 | only the cursor changes, to the given place |
| LoopRunners.LoopRunner.PauseAtStep | src/research_engine/engines/runner.py:92-102 | the gate is left pending even when the move to PAUSED is refused; otherwise the cursor remembers the pause |
| LoopRunners.LoopRunner.ResumeCursor | src/research_engine/engines/runner.py:113-132 | approves the gate once, restores the step's state and moves the cursor past the paused step; the move it requests is always legal |
| LoopRunners.LoopRunner.VisitWithHandler | src/research_engine/engines/runner.py:225-229 | the cursor is saved before the handler runs, and the handler's effect is kept whatever it signals |
| LoopRunners.LoopRunner.RunSetup | src/research_engine/engines/runner.py:221-238 | setup from any start index agrees with the step-by-step meaning of the loop |
| LoopRunners.LoopRunner.RunSteps | src/research_engine/engines/runner.py:247-263 | one iteration's steps agree with the step-by-step meaning, including the local converged flag |
| LoopRunners.LoopRunner.EndIteration | src/research_engine/engines/runner.py:265-281 | the end of an iteration agrees with the step-by-step meaning, of which StopReasons proves when conditions, convergence and the cap end a run |
| StopReasons.ConditionsStop | src/research_engine/engines/runner.py:265-275 | whenever a declared condition holds of the metrics given for the visits up to the end of an iteration, the run makes no visit of a later iteration, and only the synthesis is left |
| StopReasons.SaturationExactlyWhen | src/research_engine/engines/runner.py:265-275 | a finished run that began without a reason, and whose handlers do not set this one, stops as converged by a condition exactly when no handler sets a reason and a condition holds at the end of an iteration that is carried out |
| StopReasons.MaxIterationsExactlyWhen | src/research_engine/engines/runner.py:248-281 | a finished run that began without a reason, and whose handlers do not set this one, ends with MAX_ITERATIONS exactly when no handler sets a reason or converges, no condition holds at the end of any iteration, and the last iteration allowed is carried out |
| StopReasons.NothingElseStops | src/research_engine/engines/runner.py:248-281 | a finished run that neither converged nor met a condition has carried out the last iteration allowed |
| RunnerGates.DeclaredPauseApproves | src/research_engine/engines/runner.py:92-132 | a run whose handlers do not pause pauses behind a declared step only, and resuming it approves that step's gate and nothing else |
| RunnerGates.HandlerPauseApproves | src/research_engine/engines/runner.py:113-132 | a run without declared pauses pauses only where a handler did, waits on the gate the handler left, and resuming it approves that gate and nothing else |
| LoopRunners.LoopRunner.RunIterations | src/research_engine/engines/runner.py:240-281 | the iteration loop agrees with the step-by-step meaning and ends |
| LoopRunners.LoopRunner.RunSynthesis | src/research_engine/engines/runner.py:286-299 | synthesis agrees with the step-by-step meaning |
| LoopRunners.LoopRunner.Run | src/research_engine/engines/runner.py:215-302 | one call from any saved cursor has the outcome, project and visits of the step-by-step meaning for which transparency and crash restart are proved |
| StateWalk.WalkPhase | src/research_engine/engines/loader.py:246-273 | all errors of a phase are collected and the walk goes on in the state it was in |
| StateWalk.SimulateStateWalk | src/research_engine/engines/loader.py:237-274 | reports exactly the illegal moves, impossible pauses and the impossible convergence of one pass |
| StateWalk.AcceptsMeans | src/research_engine/engines/loader.py:237-274 | a manifest is accepted exactly when every step may be entered, left for its pause, and the iteration may converge |
| StateWalk.WalkDecidesLegality | src/research_engine/engines/loader.py:237-274 | a manifest runs without any illegal move, under every choice of convergence, questions and metrics and with every pause resumed, exactly when the walk accepts it and, for more than one iteration, its last step may be followed by its first |
| StateWalk.WalkedRun | src/research_engine/engines/registry.py:49-64 | a run of an accepted manifest that wraps around finishes |
| StateWalk.TroubleRaises | src/research_engine/engines/loader.py:256-273 | whatever the walk objects to does raise in some run |
| StateWalk.SecondIterationMayBeIllegal | src/research_engine/engines/loader.py:237-274 | an accepted manifest can raise in its second iteration: the walk checks one pass only |
| StateWalk.NoSynthesisPause | src/research_engine/engines/loader.py:262-272 | no accepted manifest declares a pause in synthesis |
| StateWalk.AcceptedShape | src/research_engine/engines/registry.py:49-64 | every accepted manifest begins its setup in CLARIFYING, ends it with generate_queries and begins its iterations with search |
| StateWalk.AcceptedTransparentExactlyWhen | src/research_engine/engines/runner.py:257-263 | pausing and resuming an accepted manifest never changes a whole run exactly when it declares no pause after evaluate_convergence inside the iterations |
| Orchestrators.Orchestrator.ReviewGate | src/research_engine/core/orchestrator.py:741-756 | goes on exactly when gates are off or this one is approved; otherwise the project is paused on it |
| Orchestrators.Orchestrator.StepHasPause | src/research_engine/engines/runner.py:104-111 | finds the first declared pause after the step whose gate is not approved |
| Orchestrators.Orchestrator.PhaseClarify | src/research_engine/core/orchestrator.py:242-276 | requests only legal moves, and agrees with the meaning of the phase for which gate transparency is proved |
| Orchestrators.Orchestrator.PhasePlan | src/research_engine/core/orchestrator.py:278-294 | the plan is made before the gate is asked, and the project is planned only behind the gate |
| Orchestrators.Orchestrator.BeginsIteration | src/research_engine/core/orchestrator.py:296-303 | the counter goes up with the move to SEARCHING, which is legal wherever it is requested |
| Orchestrators.Orchestrator.PhaseSearch | src/research_engine/core/orchestrator.py:305-379 | a cycle passes through all its states by legal moves, or converges when neither queries nor follow-ups are left |
| Orchestrators.Orchestrator.PhaseAnalyse | src/research_engine/core/orchestrator.py:381-514 | analysis converges, pauses on the cycle gate, or begins the next iteration, by legal moves only |
| Orchestrators.Orchestrator.PhaseSynthesise | src/research_engine/core/orchestrator.py:591-676 | agrees with the meaning of a run, of which GateOrder proves that the report is written only behind the last gate; completes the project |
| GateOrder.GatesStandBefore | src/research_engine/core/orchestrator.py:741-757 | with gates on in every call, over every history of runs and resumes: the plan is made only behind the problem definition gate or answered questions, nothing is searched for before the plan gate is approved, no second cycle begins before the first-cycle gate is, nothing is reported before the synthesis gate is, and every approval was given to a pause on that gate |
| GateOrder.QuestionsComeFirst | src/research_engine/core/orchestrator.py:260-276 | a project whose questions are always asked is never planned before the wait for the answers was resumed, gates or not |
| GateOrder.RunApprovesNothing | src/research_engine/core/orchestrator.py:741-757 | only resuming approves: a run adds nothing to the approved gates |
| RunStops.LoopInReason | src/research_engine/core/orchestrator.py:303-316 | from a researching project: every search has queries or follow-ups just found, an analysis goes on only undecided and with iterations left, and a converged project's stop reason is the one that ended its cycles |
| RunStops.CompletedInReason | src/research_engine/core/orchestrator.py:466-516 | a call that completes a project stopped its research because a stop was asked for, nothing was left to search for, the analysis decided so, or the iterations were used up, and the stop reason says which |
| RunStops.FailedExactlyWhen | src/research_engine/core/orchestrator.py:179-200 | a call ends with the reason FAILED exactly when its guard tripped or an illegal request made the project fail |
| Orchestrators.Orchestrator.Interrupt | src/research_engine/engines/runner.py:180-187 | a stop or pause is refused exactly where the table does not allow it |
| Orchestrators.Orchestrator.RunsLoop | src/research_engine/engines/runner.py:168-203 | the loop ends in at most 200 passes and agrees with its meaning, including the guard |
| Orchestrators.Orchestrator.Runs | src/research_engine/core/orchestrator.py:181-199 | one call takes the project to where its turns take it; an error that escapes leaves it failed |
| Orchestrators.Orchestrator.TakesUp | src/research_engine/core/orchestrator.py:207-236 | a paused project is taken up where its gate or its progress says, by legal moves only |
| Orchestrators.Orchestrator.Resume | src/research_engine/core/orchestrator.py:201-239 | approves the pending gate, takes the project up again and runs it |
| RunSafety.NeverIllegal | src/research_engine/core/state_machine.py:16-52 | over every history of runs and resumes under any settings, decisions and requests, no illegal move is requested of a project that was not killed in the middle of a cycle |
| RunSafety.IllegalExactlyFrom | src/research_engine/engines/runner.py:168-187 | a run can request an illegal move exactly from FETCHING, EXTRACTING, VERIFYING and SYNTHESIZING, where only a killed process leaves a project, and from ITERATING, which nothing enters |
| RunSafety.NoGatePausesTwice | src/research_engine/core/orchestrator.py:741-756 | over every history no gate pauses a project twice, and every gate it paused on is approved or pending |
| RunSafety.LoopNeverTrips | src/research_engine/engines/runner.py:175-179 | passes are bounded by two for each iteration left |
| RunSafety.GuardExactlyWhen | src/research_engine/engines/runner.py:167-179 | the guard of 200 passes is never reached, in any world, exactly when at most 100 iterations are allowed |
| RunSafety.CompletesExactlyWhen | src/research_engine/core/orchestrator.py:201-239 | an unhindered resume completes a project exactly when it was not left in the middle of a cycle, failed or cancelled |
| RunSafety.InertStaysInert | src/research_engine/core/orchestrator.py:201-239 | a project left in the middle of a cycle, or failed, is not taken up by resuming, and nothing is done |
| GateTransparency.GatesAreTransparent | src/research_engine/core/orchestrator.py:201-239 | a project with gates, questions and declared pauses that comes to no unsafe gate name, resumed often enough, completes with exactly the work, stop reason and iterations of the same project run straight through |
| GateTransparency.InStep | src/research_engine/engines/runner.py:134-213 | turn by turn the gated project does what the straight one does, at most one turn behind |
| GateTransparency.RunUnfolds | src/research_engine/engines/runner.py:134-213 | a call of the runner is its turns up to the first rest |
| GateTransparency.StraightCompletes | src/research_engine/engines/runner.py:168-213 | without gates a project completes within a bounded number of turns |
| GateTransparency.CallsFollowStrides | src/research_engine/core/orchestrator.py:201-239 | calls of run and resume take a project exactly through its turns |
| UnsafeGates.TransparentExactlyWhen | src/research_engine/core/orchestrator.py:209-236 | gates never change what a project does, for all settings and worlds, exactly when no project comes to a declared gate, given those it has approved on its way, whose name resuming takes for another place |
| UnsafeGates.UnsafeBreaks | src/research_engine/engines/runner.py:104-111 | every unsafe gate name that some project comes to makes it do other work than without gates |
| UnsafeGates.SafeNamesSuffice | src/research_engine/engines/runner.py:104-111 | a loop whose declared gates all carry safe names is safe on every way through it |
| UnsafeGates.WorkIsKept | src/research_engine/core/orchestrator.py:201-239 | no work done before a pause is undone by resuming |
| TaskFencing.SupersededChangesNothing | src/research_engine/storage/platform_db.py:301-373 | once a task has been claimed again, no renewal, finish or release under the earlier fence changes anything, whatever happens in between, unless this very task is retried by hand |
| TaskFencing.RetriedFencePowerExactlyWhen | src/research_engine/storage/platform_db.py:375-392 | after a manual retry, in whatever state, an old fence is accepted again exactly while the task's claim of that number since the retry is held |
| TaskFencing.PowerlessExactlyWhen | src/research_engine/storage/platform_db.py:301-373 | a fence has power exactly while its task is held under it |
| TaskFencing.FenceCountsClaims | src/research_engine/storage/platform_db.py:215-272 | a task's fence counts its claims since it was last retried by hand |
| TaskFencing.FinishedOncePerClaim | src/research_engine/storage/platform_db.py:301-349 | over any interleaving in which it is not retried by hand a task is finished at most once for each claim and never after a success, and counts as succeeded exactly when its last finish was a success |
| TaskFencing.RunProgress | src/research_engine/storage/platform_db.py:215-272 | until a task is retried by hand its attempts never decrease, a finished or dead one never changes, and it changes hands only with a new fence |
| TaskFencing.ClaimTakesFree | src/research_engine/storage/platform_db.py:215-272 | a claim never takes a task under an unexpired lease, nor one of a withheld job, and its taker owns it under the next fence |
| TaskFencing.RecoveryIgnoresRenewals | src/research_engine/platform/scheduler.py:176-211 | a restart requeues a held task exactly when the lease of its claim has run out, however often that lease was renewed |
| TaskFencing.LiveTaskRequeued | docs/scheduler.md:22-25 | a live worker's task is requeued by a restart although its lease was renewed: the promise that it can never be taken does not hold |
| TaskFencing.RetryReissuesFence | src/research_engine/storage/platform_db.py:375-392 | a manual retry hands out an old fence again, and the superseded claim is accepted |
| TaskFencing.RecoveryLeavesHolders | src/research_engine/platform/scheduler.py:176-211 | recovery of an active job leaves the job as it is exactly when one of its tasks was held before, even if all of them were overdue and have just been requeued |
| TaskFencing.BlockedTaskHandedOut | src/research_engine/platform/scheduler.py:129-155 | a blocked job that is paused and resumed has its task handed out before the job it depends on has completed |
| DependencyOrder.HandedOutInTurn | src/research_engine/storage/platform_db.py:215-272 | over every orderly run of any number of workers no claim hands out a task before the dependencies of its job have completed |
| DependencyOrder.EarlyExactlyWhen | src/research_engine/platform/scheduler.py:129-209 | after any orderly run one more call makes an early hand-out possible exactly when it resumes a paused job, requeues a pausing one or retries a task of a job that only waits for its dependencies |
| JobSafety.JobsStayFit | src/research_engine/platform/scheduler.py:107-173 | over every interleaving terminal jobs never change, and running and completed jobs have all their dependencies completed |
| JobSafety.TasksStayFit | src/research_engine/platform/scheduler.py:421-492 | without manual retries no terminal job has a live task and no completed job a dead letter |
| JobSafety.CompletesOnlyWhenDone | src/research_engine/platform/scheduler.py:468-492 | a job enters COMPLETED only when it is moved forward with its dependencies completed and neither live tasks nor dead letters |
| JobSafety.TerminalRowsAbsorb | src/research_engine/storage/platform_db.py:134-158 | whatever stale records are saved, a terminal row stays terminal |
| JobLimits.CapHolds | src/research_engine/platform/scheduler.py:238-267 | with at most 200 job rows never more capped jobs run than allowed, over every interleaving |
| JobLimits.CapFailsBeyondTheListing | src/research_engine/storage/platform_db.py:167-179 | with 201 rows the running job can be hidden behind the listing, and a second one starts |
| JobLimits.CapExactlyWhen | src/research_engine/storage/platform_db.py:167-179 | the cap holds over all runs exactly as long as a listing shows every row |
| JobLimits.ResumedNeverRuns | src/research_engine/platform/scheduler.py:451-455 | with room for one capped job a resumed one counts itself and never runs again until it is paused, cancelled or recovered |
| JobLimits.ResumedStartsExactlyWhen | src/research_engine/platform/scheduler.py:238-267 | some run takes a resumed capped job out of that status by moving jobs forward exactly when there is room for two |
| Schedulers.PlatformDB.SaveJob | src/research_engine/storage/platform_db.py:140-158 | a terminal row is overwritten only by a terminal status |
| Schedulers.PlatformDB.ClaimNextTask | src/research_engine/storage/platform_db.py:215-272 | hands out the most urgent free task of the first profile below its cap, under the next fence |
| Schedulers.PlatformDB.RenewLease | src/research_engine/storage/platform_db.py:274-299 | succeeds exactly for the owner, and renews the lease column only |
| Schedulers.PlatformDB.FinishTask | src/research_engine/storage/platform_db.py:301-349 | is accepted exactly from the owner under the current fence, a refused one changes nothing; what an accepted failure leads to is said by TaskRetries |
| TaskRetries.DeadOnlyWhenSpent | src/research_engine/storage/platform_db.py:330-336 | over any interleaving, manual retries included, a dead task has no attempt left |
| TaskRetries.DeadExactlyWhen | src/research_engine/storage/platform_db.py:330-336 | over any interleaving without a manual retry of the task it is dead exactly when the last finish accepted for it was a failure under a claim of at least the number of its attempts; it has been claimed that often |
| TaskRetries.RetryingMeans | src/research_engine/storage/platform_db.py:330-336 | a task is marked for another attempt only by a failure of its latest claim, with attempts left |
| TaskRetries.HandedOutAgainExactlyWhen | src/research_engine/storage/platform_db.py:330-336 | after an accepted failure, in a job that is not withheld and with room in its profile, the task is handed out again without a manual retry exactly when it has attempts left, and then under the next fence |
| TaskRetries.ExpiredIsHandedOut | src/research_engine/storage/platform_db.py:208-262 | a held task whose lease has run out is handed out under the next fence by some later claim, and nothing reported under the old one has any effect any more |
| Schedulers.PlatformDB.ReleaseTask | src/research_engine/storage/platform_db.py:351-373 | gives the task back exactly for its owner |
| Schedulers.PlatformDB.RequeueTask | src/research_engine/storage/platform_db.py:375-392 | starts attempts and fences over, whoever holds the task |
| Schedulers.PersistentScheduler.SubmitJob | src/research_engine/platform/scheduler.py:107-127 | a new job waits or is blocked by its dependencies, and its tasks are at least as urgent as it is |
| Schedulers.PersistentScheduler.PauseJob | src/research_engine/platform/scheduler.py:129-141 | succeeds exactly for a known job that is not over |
| Schedulers.PersistentScheduler.ResumeJob | src/research_engine/platform/scheduler.py:143-155 | takes up only paused jobs and requeues their retrying tasks |
| Schedulers.PersistentScheduler.CancelJob | src/research_engine/platform/scheduler.py:157-173 | ends the job and drops every task that has not ended |
| Schedulers.PersistentScheduler.Reclaim | src/research_engine/platform/scheduler.py:181-195 | requeues exactly the tasks whose saved lease has run out, and tells whether any task was held before |
| Schedulers.PersistentScheduler.Recover | src/research_engine/platform/scheduler.py:181-209 | an active job is requeued, or fails, only when none of its tasks was held |
| Schedulers.PersistentScheduler.ReconcileAll | src/research_engine/platform/scheduler.py:176-211 | recovers every incomplete job |
| Schedulers.PersistentScheduler.PromoteBlocked | src/research_engine/platform/scheduler.py:247-255 | requeues the listed blocked jobs whose dependencies have completed |
| Schedulers.PersistentScheduler.CountActiveDeepJobs | src/research_engine/platform/scheduler.py:238-245 | counts the active deep jobs among the listed rows |
| Schedulers.PersistentScheduler.StartJob | src/research_engine/platform/scheduler.py:257-267 | starts a job exactly when neither the cap nor a dependency holds it back |
| Schedulers.PersistentScheduler.AdvanceJob | src/research_engine/platform/scheduler.py:421-492 | one job is moved forward by its tasks as the safety results assume |
| Schedulers.PersistentScheduler.AdvanceJobs | src/research_engine/platform/scheduler.py:421-492 | the listed jobs are moved forward one after the other, or only the given one |
| JobOutcomes.JobsAccount | src/research_engine/platform/scheduler.py:421-492 | over any interleaving without manual retries: a failed job has a dead task, a partially failed one a succeeded one besides, and the reason of a job is given once it is over, by the way it ended |
| JobOutcomes.PausedMeansFree | src/research_engine/platform/scheduler.py:129-141 | over any interleaving without hasty pauses a job is paused only while nobody holds one of its tasks |
| JobOutcomes.PausesFreeExactlyWhen | src/research_engine/platform/scheduler.py:129-141 | a call lets somebody hold a task of a paused job exactly when it pauses a job that is queued or waits while one of its tasks is held |
| JobOutcomes.PausedWhileHeld | src/research_engine/platform/scheduler.py:129-141 | a queued job one of whose tasks has just been claimed is paused at once, while the task is worked on |
| JobOutcomes.AdvanceSettles | src/research_engine/platform/scheduler.py:421-492 | moving a listed job forward pauses a pausing one once nobody holds its tasks, ends a running one as its tasks did once all are over, and starts, ends or blocks one that may start by its tasks and dependencies |
| JobOutcomes.PromoteSettles | src/research_engine/platform/scheduler.py:247-255 | a blocked job that is listed is released exactly when its dependencies are met |
| JobOutcomes.ReconcileSettles | src/research_engine/platform/scheduler.py:176-212 | a restart queues every active job that nobody works on again, unless only dead tasks are left of it; then it has failed |
| JobOutcomes.ResumeSettles | src/research_engine/platform/scheduler.py:143-155 | resuming a paused job makes it wait to be started, and its tasks that were to be retried with it |
| EventDelivery.AlwaysAccounted | src/research_engine/platform/events.py:90-111 | over every interleaving queues stay within their capacity, and the drop counter equals the evicted and refused events plus drops counted twice or ahead, less those about to be counted; which addressed events are evicted or refused is said by EventAccounting.EveryEventAccounted |
| EventAccounting.EveryEventAccounted | src/research_engine/platform/events.py:90-111 | over every interleaving, and for any choice of events by queue, the events addressed to the queues by the publications begun are those taken, waiting, evicted, refused, or still on their way: none vanishes and none is made up |
| EventAccounting.DropsCoverLosses | src/research_engine/platform/events.py:90-111 | whenever no publisher is just about to count, at least as many drops are counted as addressed events are missing, that is, neither taken nor waiting nor on their way; between publications the difference is what was counted twice, at most once more for each refused event |
| EventAccounting.ReachedExactlyWhen | src/research_engine/platform/events.py:74-88 | a subscriber is addressed by exactly the events of the kinds it named, or by all if it named none or all, and by none once it has left |
| EventDelivery.AlwaysInOrder | src/research_engine/platform/events.py:90-111 | every queue is first in, first out, and each event put into it was taken, is waiting, or was evicted |
| EventOrder.SinglePublisherInOrder | src/research_engine/platform/events.py:74-111 | with one publisher, what a subscriber with a simple subscription took and what waits for it is a subsequence of what was published, however other subscribers registered |
| EventOrder.InOrderExactlyWhen | src/research_engine/platform/events.py:74-81 | a subscriber always receives a subsequence exactly when it registered no kind twice and not beside all kinds |
| EventOrder.DeliveredTwice | src/research_engine/platform/events.py:90-96 | a subscriber registered twice takes one event twice |
| EventBuses.AllTargets | src/research_engine/platform/events.py:90-111 | an uninterrupted publisher distributes its event over all targets as the bus object does |
| EventBuses.EventBus.Subscribe | src/research_engine/platform/events.py:74-81 | a fresh queue is registered for every kind, or for all |
| EventBuses.EventBus.Unsubscribe | src/research_engine/platform/events.py:83-88 | every registration of the subscriber goes, and empty kinds with it; the others stay |
| EventBuses.EventBus.Publish | src/research_engine/platform/events.py:90-111 | every registration gets the event; a full queue loses its oldest one and a drop is counted |
| TokenBuckets.GrantedExactlyWhenItFits | src/research_engine/platform/resilience.py:74-87 | an attempt is granted exactly when every window that ends with it stays within burst and rate |
| TokenBuckets.WindowBound | src/research_engine/platform/resilience.py:64-87 | over any run with a nondecreasing clock the grants in any window never exceed the burst plus what the rate supplies |
| TokenBuckets.TokensInRange | src/research_engine/platform/resilience.py:74-81 | tokens never leave the range from zero to the burst |
| TokenBuckets.TokenBucketRateLimiter.Attempt | src/research_engine/platform/resilience.py:74-83 | one look refills, and grants exactly when every window ending now stays within the limits |
| TokenBuckets.WaitsForEver | src/research_engine/platform/resilience.py:74-87 | below a burst of one a waiting caller whose timeout covers what is missing is never granted a token and never turned away, however often it looks again |
| TokenBuckets.TokenBucketRateLimiter.Acquire | src/research_engine/platform/resilience.py:74-87 | waiting ends; a grant fits every window, and a refusal means that one more would not have |
| CircuitBreakers.AllowsExactlyWhen | src/research_engine/platform/resilience.py:33-61 | a call is let through exactly when the failures since the last success are below the threshold or the cooldown since the last of them is over |
| CircuitBreakers.ProbesUnlimited | src/research_engine/platform/resilience.py:3-5 | half open lets any number of calls through until one reports back, not a single probe |
| CircuitBreakers.CircuitBreaker.Allow | src/research_engine/platform/resilience.py:33-43 | the answer is the function of the history, although the mode changes only when it is looked at |
| CircuitBreakers.CircuitBreaker.RecordSuccess | src/research_engine/platform/resilience.py:45-48 | a success ends the streak of failures |
| CircuitBreakers.CircuitBreaker.RecordFailure | src/research_engine/platform/resilience.py:50-61 | a failure extends the streak, and trips a breaker that probes or has reached its threshold |
| CircuitBreakers.FirstDelivers | src/research_engine/platform/resilience.py:129-147 | failover returns the value of the first provider that its breaker lets through and that delivers, and leaves all breakers behind it alone |
| CircuitBreakers.FailsExactlyWhen | src/research_engine/platform/resilience.py:129-147 | failover fails exactly when no provider of the chain delivers |
| Failovers.EachReportsOnce | src/research_engine/platform/resilience.py:129-147 | in a chain of different providers each one up to the first that delivers, or all if none does, reports one outcome to its breaker, being rate limited none, and the others report nothing |
| CircuitBreakers.FailoverExecutor.Run | src/research_engine/platform/resilience.py:129-147 | providers are tried in order and breakers changed as the results assume |
| Ids.RoundTrip | src/research_engine/core/ids.py:52-64 | decoding an encoded value gives it back as far as it fits the width |
| Ids.Injective | src/research_engine/core/ids.py:52-64 | two values have the same text exactly when they agree within the width |
| Ids.OrderPreserving | src/research_engine/core/ids.py:52-64 | for values that fit, texts compare as the values do |
| Ids.GreaterExactlyWhen | src/research_engine/core/ids.py:67-105 | the next id is greater exactly when the clock advanced, the process is the same, or a forked child draws a greater random component |
| Ids.StrictlyIncreasing | src/research_engine/core/ids.py:67-105 | in one unforked process every id is greater than every earlier one of its prefix for every clock, carries included, as long as the time stamp fits 50 bits |
| Ids.EncodeBase32 | src/research_engine/core/ids.py:52-64 | taking off five bits at a time yields the fixed-width encoding |
| Ids.IdGenerator.NextId | src/research_engine/core/ids.py:67-105 | mints the id of the remembered time and random component, which it advances |
| Chunking.PiecesBounded | src/research_engine/pipeline/extraction.py:100-111 | pieces are never empty and never longer than the size, and all but the last have exactly that size |
| Chunking.PiecesShare | src/research_engine/pipeline/extraction.py:100-111 | consecutive pieces share exactly the overlap, and the later one adds something |
| Chunking.Rebuilds | src/research_engine/pipeline/extraction.py:100-111 | the first piece and the others without the overlap rebuild the block |
| Chunking.RecoverableExactlyWhen | src/research_engine/pipeline/extraction.py:94-111 | every block can be put together again from its pieces exactly when the overlap is not negative |
| Chunking.ChunksNumbered | src/research_engine/pipeline/extraction.py:98-127 | chunks are numbered in the order in which they are cut |
| Chunking.SurvivorsAscend | src/research_engine/pipeline/extraction.py:128-128 | what survives the filter keeps its numbers, in ascending order, and is exactly what has enough words |
| Chunking.ParagraphChunks | src/research_engine/pipeline/extraction.py:113-127 | a paragraph's chunks are consecutive, bounded, on its page, under the last heading before it or the title, and rebuild it |
| Chunking.Chunker.Emit | src/research_engine/pipeline/extraction.py:100-111 | the loop ends and appends exactly the pieces of the block |
| Chunking.Chunker.ChunkDocument | src/research_engine/pipeline/extraction.py:94-128 | cuts all paragraphs under their headings and drops trivial fragments |
| Quotes.NormKeepsInfixes | src/research_engine/pipeline/evidence.py:65-68 | the normal form of a verbatim stretch of a text occurs in the normal form of the text |
| Quotes.VerbatimAccepted | src/research_engine/pipeline/evidence.py:71-106 | every verbatim stretch of a chunk with a normal form of at least 15 characters is accepted as exact, also when dots split it into parts |
| Quotes.ShortTailUnchecked | src/research_engine/pipeline/evidence.py:71-83 | anything short may be added behind three dots that are the first break, and the quote is still accepted as exact: short parts are not looked for |
| QuoteParts.EveryPartFoundExactlyWhen | src/research_engine/pipeline/evidence.py:74-83 | every part of a quote accepted as exact is found in the chunk, for all chunks, exactly when no part has 15 characters or each part that has not is repeated in one that has |
| QuoteParts.EveryPartPresentExactlyWhen | src/research_engine/pipeline/evidence.py:74-106 | every part of a quote accepted at all is found in the chunk or similar to a stretch of it, for all chunks and similarities, exactly when each part has 15 characters or nothing to look for |
| QuoteParts.AcceptedMeans | src/research_engine/pipeline/evidence.py:71-106 | a long enough quote is accepted exactly when each of its longer parts, or the whole quote if it has none, is found or similar somewhere |
| Quotes.BestMatch | src/research_engine/pipeline/evidence.py:87-98 | the search over windows, ended early, reaches the threshold exactly when one of the windows does |
| Quotes.MatchParts | src/research_engine/pipeline/evidence.py:84-106 | exact when every part occurs, close when every part occurs or is similar somewhere, and otherwise not found |
| Quotes.VerifyQuote | src/research_engine/pipeline/evidence.py:71-106 | the verdict is the one for which completeness and soundness are proved |
| QuoteWords.NormIsSentence | src/research_engine/pipeline/evidence.py:65-68 | the normal form of a text is its runs of letters and digits, in lower case, with a single blank between any two |
| QuoteWords.NormKeepsLetters | src/research_engine/pipeline/evidence.py:65-68 | the normal form has exactly the letters and digits of the text, in lower case and in their order |
| QuoteWords.WordsStayApart | src/research_engine/pipeline/evidence.py:65-68 | words between which anything but a letter or digit stands are kept apart |
| QuoteWords.NormSplits | src/research_engine/pipeline/evidence.py:65-68 | the normal form splits into exactly those words |
| QuoteWords.ExactIsFaithful | src/research_engine/pipeline/evidence.py:79-106 | soundness: of a quote accepted as exact, the letters and digits of each part looked for are those of one stretch of the chunk, without a gap |
| QuoteWords.WordsCounted | src/research_engine/pipeline/extraction.py:98-127 | the word count by which fragments are dropped is the number of words a text splits into |
| QuoteWindows.SplitMeans | src/research_engine/pipeline/evidence.py:80 | a quote is its parts with three dots or an ellipsis between them, and there is none within a part |
| QuoteWindows.UnsoughtExactlyWhen | src/research_engine/pipeline/evidence.py:76-79 | a quote is empty exactly when it is blank, and too short exactly when it is not and its normal form has fewer than 15 characters |
| QuoteWindows.AcceptedFrom88 | src/research_engine/pipeline/evidence.py:84-106 | by a similarity that is the same everywhere, a quote not found word for word is accepted exactly from 0.88 on |
| QuoteWindows.AllReachedExactlyWhen | src/research_engine/pipeline/evidence.py:91-97 | the windows of a chunk reach every stretch of as many words as a part has exactly for parts of fewer than 40 words; a longer verbatim stretch may be in none |
| QuoteWindows.ReachedIsContained | src/research_engine/pipeline/evidence.py:91-97 | a window that reaches a stretch contains it |
| ClaimSupport.DegradesExactlyWhen | src/research_engine/pipeline/claim_support.py:110-112 | the verdict is as low as the worst defect demands exactly when no missing figure, added negation or tightened quantifier hides a dropped hedge or an upgraded correlation found later |
| ClaimSupport.RaisesExactlyWhen | src/research_engine/pipeline/claim_support.py:110-112 | a further defect raises the verdict exactly when it calls for partial support and is looked for before the one that made the verdict weak; the verdict then rises from weak to partial |
| ClaimSupport.DefectRaisesVerdict | src/research_engine/pipeline/claim_support.py:72-75 | a claim that may not feed synthesis may feed it once a figure is missing from its quote besides |
| ClaimSupport.SupportsExactlyWhen | src/research_engine/pipeline/claim_support.py:72-75 | a claim may feed synthesis exactly when it is related, not opposed, and its first defect asks for partial support at most |
| ClaimSupport.OutcomesExactlyWhen | src/research_engine/pipeline/claim_support.py:110-200 | which signals lead to the verdicts that do not grade the support: neutral, unrelated, and contradicted, the latter by a clause that says the opposite or by other figures |
| ClaimSupport.FullSupportExactlyWhen | src/research_engine/pipeline/claim_support.py:110-224 | support is full exactly when most of the claim is covered, no figure is missing, every clause agrees with the claim, and the claim is not bolder than its quote |
| ClaimSupport.CheckClauses | src/research_engine/pipeline/claim_support.py:160-197 | a clause that negates or reverses the claim is found wherever it stands |
| ClaimSupport.VerifyClaimSupport | src/research_engine/pipeline/claim_support.py:110-224 | the floor that is threaded through the tests is the first one called for |
| Grounding.SupportIsGrounded | src/research_engine/pipeline/evidence.py:219-342 | over all rounds what supports a claim has a verified quote and a verdict other than CONTRADICTS or UNRELATED, and supports no other claim |
| Grounding.AcceptedIsPlaced | src/research_engine/pipeline/evidence.py:219-342 | over all rounds exactly the evidence that was not rejected names a claim, and it is among what that claim is supported by |
| Grounding.ConsolidateKeeps | src/research_engine/pipeline/evidence.py:295-342 | consolidation keeps evidence and claims naming each other, once each, and no claim equal to an earlier one |
| Grounding.ExtractKeeps | src/research_engine/pipeline/evidence.py:180-293 | extraction stores what it rejects without letting it support anything |
| Grounding.TallyAddsUp | src/research_engine/pipeline/evidence.py:295-330 | new and duplicate claims add up to the accepted evidence, and every new claim is counted once |
| Grounding.ReplayIsIdempotent | src/research_engine/pipeline/evidence.py:295-342 | consolidating the same evidence again changes nothing and counts every accepted piece as a duplicate |
| Grounding.SwarmsAreCertainExactlyWhen | src/research_engine/pipeline/evidence.py:331-342 | n uncontradicted pieces of at least a given tier and confidence always make a claim certain exactly when the weight of one, raised by 0.12 for each of the others, reaches 1 |
| Grounding.SwarmIsCertainExactlyFrom26 | src/research_engine/pipeline/evidence.py:331-342 | consolidation has no cap for poor sources: 26 certain pieces of the lowest tier, and no fewer, always make a claim certain |
| ClaimConfidence.EverythingIsStored | src/research_engine/pipeline/evidence.py:219-293 | every proposal with a claim is stored, in its order, rejected or not; it is rejected exactly when its quote is not verified or found to contradict the claim or to be unrelated to it |
| ClaimConfidence.ConfidenceIgnoresOrder | src/research_engine/pipeline/evidence.py:331-342 | the confidence of a claim does not depend on the order of its evidence |
| ClaimConfidence.DisputeCosts | src/research_engine/pipeline/evidence.py:331-342 | a piece of evidence found contradicted takes 0.15 off its claim's confidence, until nothing is left |
| ClaimConfidence.LoneConfidence | src/research_engine/pipeline/evidence.py:331-342 | a claim with a single certain piece is as certain as the piece's tier is trusted |
| Grounding.EvidenceWorker.ExtractChunk | src/research_engine/pipeline/evidence.py:219-293 | every item with a claim is stored, rejected or not, and the rejected ones are counted |
| Grounding.EvidenceWorker.Attach | src/research_engine/pipeline/evidence.py:305-329 | evidence goes to the first equal claim, or to a new one |
| Grounding.EvidenceWorker.ConsolidateClaims | src/research_engine/pipeline/evidence.py:295-342 | attaches all accepted evidence, then weighs all claims again |
| Strength.ScoreInRange | src/research_engine/reasoning/evidence_quality.py:122-124 | the score is in [0, 1] |
| Strength.ScoreIgnoresOrder | src/research_engine/reasoning/evidence_quality.py:75-144 | the score is the same for every order of the evidence |
| Strength.SwarmBound | src/research_engine/reasoning/evidence_quality.py:75-144 | no number of items of a given weight scores more than 0.35 above it |
| Strength.PoorSwarmBound | src/research_engine/reasoning/evidence_quality.py:75-144 | no number of items of the lowest tier scores above 0.55 |
| Strength.PrimaryScore | src/research_engine/reasoning/evidence_quality.py:75-144 | what one uncontradicted primary study scores on its own, by its confidence and age |
| Strength.SwarmNeverOutvotes | src/research_engine/reasoning/evidence_quality.py:78-82 | no swarm of the lowest tier outvotes one uncontradicted primary study that entails its claim with confidence at least 0.8, however old |
| Strength.NeverOutvotedExactlyWhen | src/research_engine/reasoning/evidence_quality.py:75-144 | for every weight, one item is never outscored by items of at most that weight exactly when it scores 0.35 more than the weight, or 1 |
| Strength.GradeOutvotesExactlyWhen | src/research_engine/reasoning/evidence_quality.py:75-144 | one item is never outscored by items of at most a tier and a support exactly when it scores the ceiling of what such an item weighs |
| Strength.PrimaryOutvotedExactlyWhen | src/research_engine/reasoning/evidence_quality.py:78-82 | the promise that weak or partially supporting swarms never outvote a primary study holds for a tier and a support exactly when the study's confidence, less its age, makes up for the weight of such an item and the boost |
| Strength.FourthTierOutvotes | src/research_engine/reasoning/evidence_quality.py:78-82 | a primary study is never outvoted by the fourth tier exactly when its confidence, less its age, is worth at least 0.7 |
| Strength.PartialSupportOutvotes | src/research_engine/reasoning/evidence_quality.py:78-82 | four independent partially supporting items of the first tier score 0.95 and outvote every primary study of confidence 0.96 or less, however recent |
| Strength.DependenceIsMutual | src/research_engine/reasoning/evidence_quality.py:32-55 | clear dependence is mutual |
| Strength.CountIndependents | src/research_engine/reasoning/evidence_quality.py:103-114 | the pair-by-pair count is the number of items that depend on no other, independently of positions |
| Strength.AggregateClaimStrength | src/research_engine/reasoning/evidence_quality.py:75-144 | the computed score is the one for which order, bounds and the cost of contradiction and age are proved |
| Penalties.ContradictionCosts | src/research_engine/reasoning/evidence_quality.py:117-127 | an accepted piece found contradicted never raises the score, and lowers it by exactly 0.15 where at most two others are contradicted, 0.05 beside three and nothing beside more, unless a score is at an end of the scale |
| Penalties.DisputedBound | src/research_engine/reasoning/evidence_quality.py:117-127 | k contradicted accepted pieces keep the score of any list at or under 1.35 less the smaller of 0.5 and 0.15 k |
| Penalties.DisputedPrimaryScore | src/research_engine/reasoning/evidence_quality.py:117-127 | a lone contradicted primary study scores 0.15 less than its confidence and age are worth, before clamping |
| Penalties.AgeCosts | src/research_engine/reasoning/evidence_quality.py:120-127 | each year up to the twelfth since the newest accepted piece takes 0.0125 off the score, and none ever adds to it, unless a score is at an end of the scale |
| Penalties.UndatedNeverAges | src/research_engine/reasoning/evidence_quality.py:120-127 | evidence without dates scores the same in every year |
| Penalties.UndatedPrimaryScore | src/research_engine/reasoning/evidence_quality.py:120-127 | a lone primary study without a date scores 0.06 less than a new one, before clamping |
| Corroboration.StudiesScore | src/research_engine/reasoning/evidence_quality.py:99-127 | n independent certain new pieces of one kind score 0, 0.12, 0.24 and from the fourth 0.35 more than one of them, up to 1 |
| Corroboration.PairScore | src/research_engine/reasoning/evidence_quality.py:99-127 | two undisputed pieces of this year corroborate each other by 0.12 exactly when both support the claim firmly, or neither does, and they do not come from one source or site |
| Corroboration.LoneScores | src/research_engine/reasoning/evidence_quality.py:84-96 | what a lone certain and new piece scores by its tier and its support, as the product of the two |
| Corroboration.BetterScoresHigher | src/research_engine/reasoning/evidence_quality.py:84-96 | of two lone certain new pieces the one with the better support, or the better tier, scores higher, and one without any support scores nothing |
| Strength.HypothesisBound | src/research_engine/reasoning/hypothesis_engine.py:434-480 | support of a given weight alone never gives a hypothesis a confidence more than 0.35 above it |
| Strength.HypothesisIgnoresOrder | src/research_engine/reasoning/hypothesis_engine.py:425-480 | a hypothesis' confidence does not depend on the order of the evidence for or against it |
| Penalties.OppositionCosts | src/research_engine/reasoning/hypothesis_engine.py:456-480 | evidence against a hypothesis takes three quarters of its best weight off the confidence, half a point at most, and never adds to it |
| Penalties.DefectCosts | src/research_engine/reasoning/hypothesis_engine.py:456-480 | each defect found takes 0.1 off a hypothesis' confidence, and never adds to it |
| Penalties.SupportCounts | src/research_engine/reasoning/hypothesis_engine.py:442-480 | a lone primary study gives a hypothesis its own confidence, and without support a hypothesis has none at all |
| Corroboration.StudiesSupport | src/research_engine/reasoning/hypothesis_engine.py:442-455 | n independent pieces of one kind support a hypothesis by their weight and 0, 0.12, 0.24 or 0.35 more, up to 1 |
| Strength.Hypothesis.ScoreFrom | src/research_engine/reasoning/hypothesis_engine.py:425-488 | support, opposition and confidence become those for which the bound is proved |
| Configs.HighestLayerWins | src/research_engine/engines/loader.py:599-744 | every tunable ends with the value of the highest of the six layers that sets it, and with that layer as its provenance |
| Configs.ProvenanceIsEffective | src/research_engine/engines/loader.py:626-680 | every value that provenance records for a field is the field's effective value |
| Configs.SpellingsExactly | src/research_engine/engines/loader.py:724-744 | exactly three keys stand for a tunable: its own name, its name under tunables and its name under its section |
| Overrides.FlattenedHolds | src/research_engine/engines/loader.py:709-744 | for every key a nested override dictionary holds what its last entry for that key gives, plainly or in a section |
| Overrides.MergesExactlyWhen | src/research_engine/engines/loader.py:709-744 | the layers can be merged exactly when each key given in the workspace or on the command line, plainly or in a section, stands for a field or a tunable |
| Overrides.NumbersFit | src/research_engine/engines/loader.py:599-706 | in a configuration that resolves, a number chosen for a tunable is whole where a whole number is asked for, 0 or 1 where a flag is, and within the tunable's range |
| Configs.ResolvesExactlyWhen | src/research_engine/engines/loader.py:682-706 | a configuration resolves exactly when no key is unknown, the count of user questions can be read, and the readings of the values chosen by the layers are within bounds |
| Configs.EffectiveWithinExactlyWhen | src/research_engine/engines/loader.py:682-706 | in a resolved configuration a bounded tunable's effective value is itself a number within its bounds exactly when the highest layer that sets it gives a number; flags, texts and null pass as what they are read as |
| Configs.EffectiveOrderExactlyWhen | src/research_engine/engines/loader.py:218-225 | the effective overlap and size are themselves numbers in order exactly when both are given as numbers |
| Configs.EffectiveLimitsExactlyWhen | src/research_engine/engines/loader.py:226-233 | the effective limits on documents and on sources are themselves numbers in order exactly when both are given as numbers |
| Configs.SettingResolves | src/research_engine/engines/loader.py:709-744 | one more setting on the command line resolves exactly when its reading keeps the bounds, and is effective as it was given |
| Configs.ResolvedNeverTrips | src/research_engine/engines/loader.py:204-205 | a resolved number of iterations never lets the run loop's guard trip |
| Configs.ResolvedChunking | src/research_engine/engines/loader.py:218-225 | resolved sizes let the chunker end, and it loses text exactly when the overlap is negative |
| Configs.BoundsMissNegatives | src/research_engine/engines/loader.py:218-225 | whatever resolves also resolves with any smaller overlap set on the command line, negative ones included |
| Configs.NegativeOverlapResolves | src/research_engine/engines/loader.py:599-706 | on top of the built-in defaults every overlap from 400 down resolves |
| Configs.BoundsMissNull | src/research_engine/engines/loader.py:202-234 | whatever resolves also resolves with any tunable set to null, which is then its effective value |
| Configs.BoundsMissText | src/research_engine/engines/loader.py:682-706 | a text that reads as an allowed number of iterations resolves, and stays a text |
| Configs.ConfigResolver.ApplyTunables | src/research_engine/engines/loader.py:631-676 | a layer sets exactly the tunables it gives |
| Configs.ConfigResolver.ApplyOverrides | src/research_engine/engines/loader.py:709-744 | applies the entries in their order, and stops at the first unknown key |
| Configs.ConfigResolver.Resolve | src/research_engine/engines/loader.py:599-706 | resolves the six layers, and refuses what is out of bounds |

## Left out

- RunSafety.CompletesExactlyWhen: the model's project record and work list stand for the repositories; a checkpoint is taken to be complete, so loss of single rows in a crash is not modelled.
- PauseTransparency.PausesAreTransparent: handlers are assumed to touch only the project's state, stop reason and pending gate; handlers of paused steps leave the state their step stands for.
- CrashRestart.CrashesSkipNothing: a run dies in a handler or at a move that is refused, whatever was persisted besides the cursor; every save of the cursor is one atomic write.
- LoopRunners.LoopRunner.Run: the registered handlers and the metrics provider are functions of the visits so far; their own effects outside the project record are not modelled.
- Orchestrators.Orchestrator.Runs: a phase that raises for reasons of its own, which leaves the project failed, is not part of the world's choices.
- Orchestrators.Orchestrator.RunsLoop: the cursor that an orchestrated run saves is never read back by it, so it is not part of that object; events, budgets and task rows of the project are not either.
- GateTransparency.GatesAreTransparent: stop and pause requests are excluded, because a pause taken while gaps are analysed resumes at searching; unlimited iterations are excluded by the guard.
- UnsafeGates.TransparentExactlyWhen: up to 100 iterations, like the guard; stop and pause requests are excluded as in the results it rests on.
- StateWalk.WalkDecidesLegality: handlers are those that ask the state machine for their step's state; the sets of steps that each phase may draw from are taken from the validation that precedes the walk.
- TaskFencing.FinishedOncePerClaim: each database or scheduler call is one atomic step; the separate read and write inside one call are not interleaved with other calls.
- TaskFencing.SupersededChangesNothing: excludes manual retries of the task itself, which reset its fence; RetriedFencePowerExactlyWhen says what they do.
- JobSafety.TasksStayFit: excludes the manual retry, which can revive a task of a job that is over.
- JobLimits.CapHolds: job rows are numbered in the order of creation and never resubmitted under an old id.
- Schedulers.PersistentScheduler.AdvanceJobs: progress counters, time stamps, trace ids and published events of a job are not modelled, nor is the worker thread that calls these methods.
- EventDelivery.AlwaysAccounted: the subscriber's queue is the standard library's bounded queue, whose put and get are atomic; the persister thread is one of the consumers.
- EventBuses.EventBus.Publish: the bus holds its queues by number instead of by reference; taking events out is part of the interleaved model only.
- TokenBuckets.TokenBucketRateLimiter.Acquire: real numbers instead of floating point, a positive rate, and one caller at a time; the one wait that never ends is excluded, as far as it can be told before the call.
- CircuitBreakers.AllowsExactlyWhen: the clock never runs backwards, as a monotonic clock does not.
- CircuitBreakers.FailoverExecutor.Run: what a provider answers and whether its rate limit allows it are inputs; the error messages are not modelled.
- Ids.StrictlyIncreasing: the entropy source, the clock and the process id are inputs; content hashes and URL canonicalisation are left out, the latter because it is not idempotent.
- Chunking.Chunker.ChunkDocument: splitting into paragraphs and recognising headings are regular expressions and come as inputs.
- QuoteWords.ExactIsFaithful: the stretch may begin or end inside a word of the chunk, as the code's search for a part of the text allows.
- Quotes.VerbatimAccepted: text is ASCII apart from the ellipsis character; the similarity ratio of near matches is an arbitrary function.
- ClaimSupport.VerifyClaimSupport: what the regular expressions and token tests find in the two texts comes as inputs.
- Grounding.SupportIsGrounded: when two claims count as the same is an arbitrary reflexive relation; attributes, numbers and notes of evidence are not modelled, and rounding to three digits is not either.
- Strength.ScoreIgnoresOrder: real numbers without rounding; labels of dependence other than clear dependence do not enter the score and are left out.
- Strength.Hypothesis.ScoreFrom: testability, novelty and the other display dimensions, the hypothesis life cycle and the ranking of portfolios are left out.
- Configs.HighestLayerWins: values are finite numbers, flags, texts, null or others; how a text reads as a number or a flag is an arbitrary function; reading YAML, environment strings and command lines, and merging inherited engine manifests, are left out.
- Cooperative pauses, scheduler liveness and soundness of the static walk over several iterations are not claimed: the code does not provide them.
- Storage, search and language model providers, HTTP, REST and command line adapters, reports, backups, sandboxing and scoring heuristics are left out: they are adapters or hold no hard property.
