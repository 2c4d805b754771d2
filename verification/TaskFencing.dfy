/** Ownership of tasks over every interleaving of calls: what a superseded worker can still do,
    how often a task can be finished, and what takes a task away from a live worker. */
module TaskFencing {
  import opened Options
  import opened Scheduling

  /** How a task row may change in one step, apart from a manual retry. */
  predicate Progress(t: Task, t1: Task) {
    && t1.job == t.job && t1.profile == t.profile
    && t.attempts <= t1.attempts
    && (t.status == Succeeded || t.status == DeadLetter ==> t1 == t)
    && (t.status == Dropped ==> t1.status == Dropped)
    && (t1.status.Held() && t1.attempts == t.attempts ==> t.status.Held() && t1.worker == t.worker && t1.savedLease == t.savedLease)
  }

  predicate TasksProgress(tasks: seq<Task>, tasks1: seq<Task>) {
    && |tasks| <= |tasks1|
    && forall i :: 0 <= i < |tasks| ==> Progress(tasks[i], tasks1[i])
  }

  /** No task becomes a success. */
  predicate NoneSucceeds(tasks: seq<Task>, tasks1: seq<Task>) {
    && |tasks| <= |tasks1|
    && forall i :: 0 <= i < |tasks1| && tasks1[i].status == Succeeded ==> i < |tasks| && tasks[i].status == Succeeded
  }

  lemma ProgressChains(a: seq<Task>, b: seq<Task>, c: seq<Task>)
    requires TasksProgress(a, b) && TasksProgress(b, c)
    ensures TasksProgress(a, c)
  {
    forall i | 0 <= i < |a| ensures Progress(a[i], c[i]) {
      assert Progress(a[i], b[i]) && Progress(b[i], c[i]);
    }
  }

  lemma RecoverProgress(s: State, id: nat, now: int)
    requires id < |s.jobs|
    ensures var s1 := Recovered(s, id, now); TasksProgress(s.tasks, s1.tasks) && NoneSucceeds(s.tasks, s1.tasks)
  {
    hide HasLive;
    hide HasHeld;
    hide HasDead;
    hide Saved;
  }

  lemma {:induction false} ReconcileProgress(s: State, now: int, n: nat)
    requires n <= |s.jobs|
    ensures var s1 := Reconciled(s, now, n); TasksProgress(s.tasks, s1.tasks) && NoneSucceeds(s.tasks, s1.tasks)
  {
    if n > 0 {
      ReconcileProgress(s, now, n - 1);
      var s1 := Reconciled(s, now, n - 1);
      RecoverProgress(s1, n - 1, now);
      hide Recovered;
      ProgressChains(s.tasks, s1.tasks, Recovered(s1, n - 1, now).tasks);
    }
  }

  lemma {:induction false} PromoteKeepsTasks(s: State, ids: seq<nat>)
    requires Rows(ids, |s.jobs|)
    ensures Promoted(s, ids).tasks == s.tasks
  {
    if ids != [] {
      PromoteKeepsTasks(s, ids[..|ids| - 1]);
    }
  }

  lemma {:induction false} PickClaimable(cfg: Config, s: State, now: int, profile: nat)
    requires profile <= |cfg.caps|
    ensures var i := Pick(cfg, s, now, profile);
      i.Some? ==> s.tasks[i.value].profile < |cfg.caps| && Claimable(s, i.value, s.tasks[i.value].profile, now)
    decreases |cfg.caps| - profile
  {
    if profile < |cfg.caps| {
      PickClaimable(cfg, s, now, profile + 1);
    }
  }

  lemma StepProgress(cfg: Config, s: State, step: Step)
    requires !step.Retry?
    ensures var s1 := Apply(cfg, s, step);
      TasksProgress(s.tasks, s1.tasks) && (!step.Finish? ==> NoneSucceeds(s.tasks, s1.tasks))
  {
    hide HasLive;
    hide HasHeld;
    hide HasDead;
    hide Saved;
    match step
    case Reconcile(now) => ReconcileProgress(s, now, |s.jobs|);
    case Promote => PromoteKeepsTasks(s, Listed(s.jobs, Some(Blocked)));
    case Claim(worker, now) => PickClaimable(cfg, s, now, 0);
    case _ =>
  }

  predicate NoRetries(steps: seq<Step>) {
    forall k :: 0 <= k < |steps| ==> !steps[k].Retry?
  }

  /** The task is not retried by hand; others may be. */
  predicate NeverRetried(steps: seq<Step>, i: nat) {
    forall k :: 0 <= k < |steps| ==> steps[k] != Retry(i)
  }

  /** Whatever one step other than its own manual retry makes of a task. */
  lemma TaskProgress(cfg: Config, s: State, step: Step, i: nat)
    requires i < |s.tasks| && step != Retry(i)
    ensures var s1 := Apply(cfg, s, step);
      && i < |s1.tasks| && Progress(s.tasks[i], s1.tasks[i])
      && (!step.Finish? && s1.tasks[i].status == Succeeded ==> s.tasks[i].status == Succeeded)
  {
    if !step.Retry? {
      StepProgress(cfg, s, step);
      hide Apply;
    }
  }

  lemma {:induction false} RunProgress(cfg: Config, s: State, steps: seq<Step>, i: nat)
    requires i < |s.tasks| && NeverRetried(steps, i)
    ensures var s1 := Run(cfg, s, steps); i < |s1.tasks| && Progress(s.tasks[i], s1.tasks[i])
  {
    hide Apply;
    if steps != [] {
      var n := |steps| - 1;
      RunProgress(cfg, s, steps[..n], i);
      TaskProgress(cfg, Run(cfg, s, steps[..n]), steps[n], i);
    }
  }

  /** Nothing changes under the given fence, whoever uses it. */
  ghost predicate Powerless(cfg: Config, s: State, i: nat, fence: nat) {
    && (forall worker, ok :: Apply(cfg, s, Finish(i, worker, ok, Some(fence))) == s)
    && (forall worker, now :: Apply(cfg, s, Heartbeat(i, worker, Some(fence), now)) == s)
    && (forall worker :: Apply(cfg, s, Release(i, worker, Some(fence))) == s)
  }

  /** A fence has power exactly while the task is held under it. */
  lemma PowerlessExactlyWhen(cfg: Config, s: State, i: nat, fence: nat)
    ensures Powerless(cfg, s, i, fence) <==> !(i < |s.tasks| && s.tasks[i].status.Held() && s.tasks[i].attempts == fence)
  {
    if i < |s.tasks| && s.tasks[i].status.Held() && s.tasks[i].attempts == fence {
      assert Apply(cfg, s, Finish(i, s.tasks[i].worker, true, Some(fence))).tasks[i].status == Succeeded;
    }
  }

  /** Once a task has been claimed again, the earlier claim is worth nothing: whatever happens afterwards,
      manual retries of other tasks included, no renewal, finish or release under its fence changes anything. */
  lemma SupersededChangesNothing(cfg: Config, s: State, steps: seq<Step>, i: nat, fence: nat)
    requires NeverRetried(steps, i) && i < |s.tasks| && fence < s.tasks[i].attempts
    ensures Powerless(cfg, Run(cfg, s, steps), i, fence)
  {
    RunProgress(cfg, s, steps, i);
    PowerlessExactlyWhen(cfg, Run(cfg, s, steps), i, fence);
    hide Run;
    hide Powerless;
  }

  /** The claim hands out the given task. */
  predicate Takes(cfg: Config, s: State, step: Step, i: nat) {
    step.Claim? && Pick(cfg, s, step.now, 0) == Some(i)
  }

  /** How often a task is claimed in a run. */
  function Claims(cfg: Config, s: State, steps: seq<Step>, i: nat): nat {
    if steps == [] then 0
    else
      var n := |steps| - 1;
      Claims(cfg, s, steps[..n], i) + (if Takes(cfg, Run(cfg, s, steps[..n]), steps[n], i) then 1 else 0)
  }

  lemma {:induction false} RecoveryCountsNone(s: State, now: int, n: nat, i: nat)
    requires i < |s.tasks| && n <= |s.jobs|
    ensures var s1 := Reconciled(s, now, n); i < |s1.tasks| && s1.tasks[i].attempts == s.tasks[i].attempts
  {
    hide HasLive;
    hide HasHeld;
    hide HasDead;
    if n > 0 {
      RecoveryCountsNone(s, now, n - 1, i);
    }
  }

  lemma AttemptsCount(cfg: Config, s: State, step: Step, i: nat)
    requires i < |s.tasks| && step != Retry(i)
    ensures var s1 := Apply(cfg, s, step);
      i < |s1.tasks| && s1.tasks[i].attempts == s.tasks[i].attempts + (if Takes(cfg, s, step, i) then 1 else 0)
  {
    hide Pick;
    match step
    case Reconcile(now) => RecoveryCountsNone(s, now, |s.jobs|, i);
    case Promote => PromoteKeepsTasks(s, Listed(s.jobs, Some(Blocked)));
    case _ =>
  }

  /** A task's fence counts its claims since it was last retried by hand. */
  lemma {:induction false} FenceCountsClaims(cfg: Config, s: State, steps: seq<Step>, i: nat)
    requires i < |s.tasks| && NeverRetried(steps, i)
    ensures var s1 := Run(cfg, s, steps);
      i < |s1.tasks| && s1.tasks[i].attempts == s.tasks[i].attempts + Claims(cfg, s, steps, i)
  {
    hide Apply;
    hide Takes;
    if steps != [] {
      var n := |steps| - 1;
      FenceCountsClaims(cfg, s, steps[..n], i);
      AttemptsCount(cfg, Run(cfg, s, steps[..n]), steps[n], i);
    }
  }

  /** A manual retry hands the old fences out again, whatever state it finds: afterwards a fence, however
      long superseded, is accepted exactly while the task's claim of that number since the retry is held. */
  lemma RetriedFencePowerExactlyWhen(cfg: Config, s: State, steps: seq<Step>, i: nat, fence: nat)
    requires i < |s.tasks| && NeverRetried(steps, i)
    ensures var s1 := Run(cfg, Apply(cfg, s, Retry(i)), steps);
      && i < |s1.tasks|
      && (!Powerless(cfg, s1, i, fence) <==>
            s1.tasks[i].status.Held() && Claims(cfg, Apply(cfg, s, Retry(i)), steps, i) == fence)
  {
    var s0 := Apply(cfg, s, Retry(i));
    assert i < |s0.tasks| && s0.tasks[i].attempts == 0;
    FenceCountsClaims(cfg, s0, steps, i);
    PowerlessExactlyWhen(cfg, Run(cfg, s0, steps), i, fence);
    hide Apply;
    hide Run;
    hide Powerless;
  }

  // ------------------------------------------------------------------ finishing

  /** A finish that was accepted: the claim it belonged to, and whether it was a success. */
  datatype Finishing = Finishing(claim: nat, ok: bool)

  /** The finishes of a task after one more step. */
  function Extended(s: State, step: Step, i: nat, finishes: seq<Finishing>): seq<Finishing> {
    if step.Finish? && step.i == i && Owns(s, i, step.worker, step.fence) then finishes + [Finishing(s.tasks[i].attempts, step.ok)]
    else finishes
  }

  /** The accepted finishes of a task over a run. */
  function Finishes(cfg: Config, s: State, steps: seq<Step>, i: nat): seq<Finishing> {
    if steps == [] then []
    else
      var n := |steps| - 1;
      Extended(Run(cfg, s, steps[..n]), steps[n], i, Finishes(cfg, s, steps[..n], i))
  }

  /** Finishes belong to later and later claims, and nothing follows a success. */
  predicate InOrder(finishes: seq<Finishing>) {
    forall a, b :: 0 <= a < b < |finishes| ==> finishes[a].claim < finishes[b].claim && !finishes[a].ok
  }

  /** What the finishes so far say about the task. */
  predicate Matches(finishes: seq<Finishing>, t: Task) {
    if finishes == [] then t.status != Succeeded
    else
      var last := finishes[|finishes| - 1];
      && last.claim <= t.attempts
      && (t.status.Held() ==> last.claim < t.attempts)
      && (last.ok <==> t.status == Succeeded)
  }

  lemma FinishExtends(cfg: Config, s: State, step: Step, i: nat, finishes: seq<Finishing>)
    requires i < |s.tasks| && step.Finish? && InOrder(finishes) && Matches(finishes, s.tasks[i])
    ensures var s1, finishes1 := Apply(cfg, s, step), Extended(s, step, i, finishes);
      i < |s1.tasks| && InOrder(finishes1) && Matches(finishes1, s1.tasks[i])
  {
  }

  lemma StepExtends(cfg: Config, s: State, step: Step, i: nat, finishes: seq<Finishing>)
    requires i < |s.tasks| && step != Retry(i) && InOrder(finishes) && Matches(finishes, s.tasks[i])
    ensures var s1, finishes1 := Apply(cfg, s, step), Extended(s, step, i, finishes);
      i < |s1.tasks| && InOrder(finishes1) && Matches(finishes1, s1.tasks[i])
  {
    if step.Finish? {
      FinishExtends(cfg, s, step, i, finishes);
    } else {
      TaskProgress(cfg, s, step, i);
      hide Apply;
    }
  }

  lemma NewTasksUnfinished(cfg: Config, s: State, step: Step, i: nat)
    requires |s.tasks| <= i
    ensures var s1 := Apply(cfg, s, step); i < |s1.tasks| ==> Matches([], s1.tasks[i])
  {
    if !step.Retry? {
      StepProgress(cfg, s, step);
    }
  }

  lemma NothingFinished()
    ensures InOrder([])
  {
  }

  /** Over any run in which it is not retried by hand a task is finished at most once for each claim,
      never again after a success, and counts as succeeded exactly when its last finish was one. */
  lemma {:induction false} FinishedOncePerClaim(cfg: Config, steps: seq<Step>, i: nat)
    requires NeverRetried(steps, i)
    ensures var finishes, s := Finishes(cfg, EMPTY, steps, i), Run(cfg, EMPTY, steps);
      && InOrder(finishes)
      && (if i < |s.tasks| then Matches(finishes, s.tasks[i]) else finishes == [])
  {
    hide Apply;
    hide InOrder;
    hide Matches;
    if steps != [] {
      var n := |steps| - 1;
      FinishedOncePerClaim(cfg, steps[..n], i);
      var s := Run(cfg, EMPTY, steps[..n]);
      if i < |s.tasks| {
        StepExtends(cfg, s, steps[n], i, Finishes(cfg, EMPTY, steps[..n], i));
      } else {
        NewTasksUnfinished(cfg, s, steps[n], i);
      }
    } else {
      NothingFinished();
    }
  }

  // ------------------------------------------------------------------ what takes a task away

  /** A claim never takes a task from a worker whose lease has not run out. */
  lemma ClaimTakesFree(cfg: Config, s: State, worker: string, now: int, i: nat)
    requires i < |s.tasks| && ClaimedBy(cfg, s, worker, now).tasks[i] != s.tasks[i]
    ensures Free(s.tasks[i], now)
    ensures s.tasks[i].job < |s.jobs| ==> !s.jobs[s.tasks[i].job].status.Withheld()
    ensures Owns(ClaimedBy(cfg, s, worker, now), i, worker, Some(s.tasks[i].attempts + 1))
  {
    PickClaimable(cfg, s, now, 0);
  }

  /** A task held by a worker since a claim at the given time, its lease renewed any number of times. */
  predicate HeldSince(cfg: Config, s: State, i: nat, worker: string, claimed: int) {
    && i < |s.tasks| && s.tasks[i].status.Held() && s.tasks[i].worker == worker
    && s.tasks[i].savedLease == Some(claimed + cfg.leaseSeconds)
  }

  /** Renewals keep a task away from claims but not from recovery: a restart requeues it exactly
      when the lease of its claim has run out, however often that was renewed. */
  lemma {:induction false} RecoveryIgnoresRenewals(cfg: Config, s: State, steps: seq<Step>, i: nat, worker: string, claimed: int, now: int)
    requires HeldSince(cfg, s, i, worker, claimed)
    requires s.tasks[i].job < |s.jobs| && !s.jobs[s.tasks[i].job].status.Terminal()
    requires forall k :: 0 <= k < |steps| ==> steps[k].Heartbeat?
    ensures var s1 := Run(cfg, s, steps);
      && HeldSince(cfg, s1, i, worker, claimed)
      && (Owns(Apply(cfg, s1, Reconcile(now)), i, worker, None) <==> now < claimed + cfg.leaseSeconds)
  {
    if steps == [] {
      RecoveryOf(s, i, now, |s.jobs|);
    } else {
      var n := |steps| - 1;
      RecoveryIgnoresRenewals(cfg, s, steps[..n], i, worker, claimed, now);
      HeartbeatsKeep(cfg, s, steps[..n]);
      HeartbeatsKeep(cfg, s, steps);
      RecoveryOf(Run(cfg, s, steps), i, now, |s.jobs|);
    }
  }

  lemma {:induction false} HeartbeatsKeep(cfg: Config, s: State, steps: seq<Step>)
    requires forall k :: 0 <= k < |steps| ==> steps[k].Heartbeat?
    ensures var s1 := Run(cfg, s, steps);
      s1.jobs == s.jobs && |s1.tasks| == |s.tasks| && forall i :: 0 <= i < |s.tasks| ==> s1.tasks[i].job == s.tasks[i].job
  {
    if steps != [] {
      HeartbeatsKeep(cfg, s, steps[..|steps| - 1]);
    }
  }

  /** What recovering one job makes of a task: its own are reclaimed, others stay as they are. */
  lemma RecoveredTask(s: State, id: nat, now: int, i: nat)
    requires id < |s.jobs| && i < |s.tasks| && s.tasks[i].job < |s.jobs|
    ensures var s1 := Recovered(s, id, now);
      && i < |s1.tasks|
      && (if s.tasks[i].job == id && !s.jobs[id].status.Terminal() then s1.tasks[i] == Reclaimed(now)(s.tasks[i]) else s1.tasks[i] == s.tasks[i])
      && (s.tasks[i].job != id ==> s1.jobs[s.tasks[i].job] == s.jobs[s.tasks[i].job])
  {
    hide HasLive;
    hide HasHeld;
    hide HasDead;
    hide Reclaimed;
  }

  lemma {:induction false} RecoveryOf(s: State, i: nat, now: int, n: nat)
    requires i < |s.tasks| && s.tasks[i].job < |s.jobs| && !s.jobs[s.tasks[i].job].status.Terminal() && n <= |s.jobs|
    ensures var s1 := Reconciled(s, now, n);
      && i < |s1.tasks|
      && (if s.tasks[i].job < n then s1.tasks[i] == Reclaimed(now)(s.tasks[i])
          else s1.tasks[i] == s.tasks[i] && s1.jobs[s.tasks[i].job] == s.jobs[s.tasks[i].job])
  {
    hide Recovered;
    if n > 0 {
      RecoveryOf(s, i, now, n - 1);
      ReclaimedJob(s.tasks[i], now);
      RecoveredTask(Reconciled(s, now, n - 1), n - 1, now, i);
    }
    hide Reclaimed;
  }

  lemma ReclaimedJob(t: Task, now: int)
    ensures Reclaimed(now)(t).job == t.job
  {
  }

  /** Recovery of an active job looks at the tasks as they were before it reclaimed them: the job is
      requeued, or fails, exactly when none of them was held, overdue or not. */
  lemma RecoveryLeavesHolders(s: State, id: nat, now: int)
    requires id < |s.jobs| && s.jobs[id].status.Active() && s.jobs[id].status != Queued
    ensures Recovered(s, id, now).jobs == s.jobs <==> HasHeld(s.tasks, id)
    ensures HasHeld(s.tasks, id) && (forall i :: 0 <= i < |s.tasks| && s.tasks[i].job == id ==> Overdue(s.tasks[i], now)) ==>
      !HasHeld(Recovered(s, id, now).tasks, id)
  {
    hide HasDead;
    hide HasLive;
    assert Recovered(s, id, now).jobs[id].status in {s.jobs[id].status, Queued, JobStatus.Failed};
    assert Recovered(s, id, now).jobs == s.jobs ==> Recovered(s, id, now).jobs[id] == s.jobs[id];
  }

  lemma RunOn(cfg: Config, s: State, steps: seq<Step>, step: Step)
    ensures Run(cfg, s, steps + [step]) == Apply(cfg, Run(cfg, s, steps), step)
    ensures Run(cfg, s, [step]) == Apply(cfg, s, step)
  {
    assert (steps + [step])[..|steps|] == steps;
  }

  /** A job with a single task. */
  const ERRAND: NewJob := NewJob(DeepResearch, 50, [], [NewTask(50, 0, 3)])

  /** The errand as one worker has claimed it, for the first time. */
  function OnErrand(cfg: Config, worker: string): State {
    State([Job(DeepResearch, Queued, 50, [], None)],
          [Task(0, Executing, 50, 0, 1, 3, worker, Some(cfg.leaseSeconds), Some(cfg.leaseSeconds))])
  }

  /** The errand as it was submitted. */
  const SUBMITTED: State := State([Job(DeepResearch, Queued, 50, [], None)], [Task(0, Waiting, 50, 0, 0, 3, "", None, None)])

  lemma ErrandTaken(cfg: Config, worker: string)
    requires |cfg.caps| > 0 && cfg.caps[0] > 0
    ensures Apply(cfg, SUBMITTED, Claim(worker, 0)) == OnErrand(cfg, worker)
  {
    assert Busy(SUBMITTED.tasks[..0], 0, 0) == 0;
    assert Choice(SUBMITTED, 0, 0, 0) == None;
    assert Choice(SUBMITTED, 0, 0, 1) == Some(0);
    assert Pick(cfg, SUBMITTED, 0, 0) == Some(0);
  }

  lemma ErrandSubmitted(cfg: Config)
    ensures Run(cfg, EMPTY, [Submit(ERRAND)]) == SUBMITTED
  {
    assert Enqueued(ERRAND, 0, 0) == [];
    assert Enqueued(ERRAND, 0, 1) == SUBMITTED.tasks;
    RunOn(cfg, EMPTY, [], Submit(ERRAND));
  }

  lemma ErrandClaimed(cfg: Config, worker: string)
    requires |cfg.caps| > 0 && cfg.caps[0] > 0
    ensures Run(cfg, EMPTY, [Submit(ERRAND)] + [Claim(worker, 0)]) == OnErrand(cfg, worker)
  {
    ErrandSubmitted(cfg);
    RunOn(cfg, EMPTY, [Submit(ERRAND)], Claim(worker, 0));
    ErrandTaken(cfg, worker);
  }

  /** A restart can take a task away from a live worker whose lease has just been renewed. */
  lemma LiveTaskRequeued(cfg: Config, worker: string)
    requires cfg.leaseSeconds == 120 && |cfg.caps| > 0 && cfg.caps[0] > 0
    ensures var s := Run(cfg, EMPTY, [Submit(ERRAND)] + [Claim(worker, 0)] + [Heartbeat(0, worker, Some(1), 100)]);
      && Owns(s, 0, worker, Some(1)) && s.tasks[0].lease == Some(220)
      && !Owns(Apply(cfg, s, Reconcile(130)), 0, worker, Some(1))
  {
    ErrandClaimed(cfg, worker);
    RunOn(cfg, EMPTY, [Submit(ERRAND)] + [Claim(worker, 0)], Heartbeat(0, worker, Some(1), 100));
    var s := Renewed(cfg, OnErrand(cfg, worker), 0, worker, Some(1), 100);
    RecoveryOf(s, 0, 130, 1);
  }

  lemma ErrandRetried(cfg: Config, worker: string)
    ensures var s := OnErrand(cfg, worker);
      Apply(cfg, s, Retry(0)) == SUBMITTED && Owns(s, 0, worker, Some(1)) && !Powerless(cfg, s, 0, 1)
  {
    assert Apply(cfg, OnErrand(cfg, worker), Finish(0, worker, true, Some(1))).tasks[0].status == Succeeded;
  }

  /** A manual retry hands out the same fence again: a superseded claim is accepted. */
  lemma RetryReissuesFence(cfg: Config, worker: string)
    requires |cfg.caps| > 0 && cfg.caps[0] > 0
    ensures var s := Run(cfg, EMPTY, [Submit(ERRAND)] + [Claim(worker, 0)]);
      var s1 := Run(cfg, s, [Retry(0)] + [Claim(worker, 0)]);
      Owns(s, 0, worker, Some(1)) && Owns(s1, 0, worker, Some(1)) && !Powerless(cfg, s1, 0, 1)
  {
    hide *;
    ErrandClaimed(cfg, worker);
    ErrandTaken(cfg, worker);
    ErrandRetried(cfg, worker);
    RunOn(cfg, OnErrand(cfg, worker), [], Retry(0));
    RunOn(cfg, OnErrand(cfg, worker), [Retry(0)], Claim(worker, 0));
  }

  // ------------------------------------------------------------------ what is handed out too early

  /** Blocked behind the errand. */
  const FOLLOW_UP: NewJob := NewJob(DeepResearch, 10, [0], [NewTask(10, 0, 3)])

  const BOTH_TASKS: seq<Task> := SUBMITTED.tasks + [Task(1, Waiting, 10, 0, 0, 3, "", None, None)]

  function Both(status: JobStatus): State {
    State(SUBMITTED.jobs + [Job(DeepResearch, status, 10, [0], None)], BOTH_TASKS)
  }

  lemma BothPausedAndResumed(cfg: Config)
    ensures Apply(cfg, Both(Blocked), Pause(1)) == Both(Paused)
    ensures Apply(cfg, Both(Paused), Resume(1)) == Both(Resuming)
  {
    var s := Both(Paused);
    assert Changed(s.tasks, 1, Requeueing, |s.tasks|) == s.tasks;
    assert s.jobs[1 := Job(DeepResearch, Resuming, 10, [0], None)] == Both(Resuming).jobs;
    assert Both(Blocked).jobs[1 := Job(DeepResearch, Paused, 10, [0], None)] == s.jobs;
  }

  lemma FollowUpResumed(cfg: Config)
    ensures Run(cfg, EMPTY, [Submit(ERRAND)] + [Submit(FOLLOW_UP)] + [Pause(1)] + [Resume(1)]) == Both(Resuming)
  {
    ErrandSubmitted(cfg);
    assert Enqueued(FOLLOW_UP, 1, 0) == [];
    assert Enqueued(FOLLOW_UP, 1, 1) == [Task(1, Waiting, 10, 0, 0, 3, "", None, None)];
    assert !DependenciesMet(SUBMITTED.jobs, FOLLOW_UP.dependsOn) by {
      assert FOLLOW_UP.dependsOn[0] == 0;
    }
    assert Apply(cfg, SUBMITTED, Submit(FOLLOW_UP)) == Both(Blocked);
    BothPausedAndResumed(cfg);
    RunOn(cfg, EMPTY, [Submit(ERRAND)], Submit(FOLLOW_UP));
    RunOn(cfg, EMPTY, [Submit(ERRAND)] + [Submit(FOLLOW_UP)], Pause(1));
    RunOn(cfg, EMPTY, [Submit(ERRAND)] + [Submit(FOLLOW_UP)] + [Pause(1)], Resume(1));
    hide Run;
    hide Apply;
  }

  /** A blocked job that is paused and resumed has its task handed out although the job it depends
      on has not completed. */
  lemma BlockedTaskHandedOut(cfg: Config, worker: string)
    requires |cfg.caps| > 0 && cfg.caps[0] > 0
    ensures var s := Run(cfg, EMPTY, [Submit(ERRAND)] + [Submit(FOLLOW_UP)] + [Pause(1)] + [Resume(1)]);
      && |s.tasks| == |s.jobs| == 2 && s.tasks[1].job == 1 && !DependenciesMet(s.jobs, s.jobs[1].dependsOn)
      && Owns(Apply(cfg, s, Claim(worker, 0)), 1, worker, Some(1))
  {
    FollowUpResumed(cfg);
    hide Run;
    var s := Both(Resuming);
    assert s.jobs[1].dependsOn[0] == 0;
    assert Busy(s.tasks[..0], 0, 0) == 0;
    assert s.tasks[..1] == SUBMITTED.tasks;
    assert Busy(s.tasks, 0, 0) == 0;
    assert Choice(s, 0, 0, 0) == None;
    assert Choice(s, 0, 0, 1) == Some(0);
    assert Choice(s, 0, 0, 2) == Some(1);
    assert Pick(cfg, s, 0, 0) == Some(1);
  }
}
