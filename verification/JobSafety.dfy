/** What every interleaving of scheduler calls keeps: terminal jobs stay as they are, running and
    completed jobs have their dependencies completed, and a job is over only when its tasks are. */
module JobSafety {
  import opened Options
  import opened Scheduling
  import TaskFencing

  /** How the job rows may change: rows are only added, and terminal rows never change. */
  predicate JobsProgress(jobs: seq<Job>, jobs1: seq<Job>) {
    && |jobs| <= |jobs1|
    && forall j :: 0 <= j < |jobs| ==>
      && jobs1[j].kind == jobs[j].kind && jobs1[j].priority == jobs[j].priority && jobs1[j].dependsOn == jobs[j].dependsOn
      && (jobs[j].status.Terminal() ==> jobs1[j] == jobs[j])
  }

  /** The statuses that are ever entered; what runs or has completed had its dependencies completed. */
  predicate JobFits(jobs: seq<Job>, job: Job) {
    && job.status in {Queued, Running, Pausing, Paused, Resuming, Completed, Failed, FailedPartial, Cancelled, Blocked}
    && (job.status == Running || job.status == Completed ==> DependenciesMet(jobs, job.dependsOn))
  }

  predicate JobsFit(jobs: seq<Job>) {
    forall j :: 0 <= j < |jobs| ==> JobFits(jobs, jobs[j])
  }

  /** The task of a terminal job is not live, nor is the task of a completed job a dead letter. */
  predicate TaskFits(jobs: seq<Job>, t: Task) {
    && t.job < |jobs|
    && (jobs[t.job].status.Terminal() ==> !t.status.Live())
    && (jobs[t.job].status == Completed ==> t.status != DeadLetter)
  }

  predicate TasksFit(s: State) {
    forall i :: 0 <= i < |s.tasks| ==> TaskFits(s.jobs, s.tasks[i])
  }

  lemma FitsOn(jobs: seq<Job>, jobs1: seq<Job>, job: Job)
    requires JobsProgress(jobs, jobs1) && JobFits(jobs, job)
    ensures JobFits(jobs1, job)
  {
  }

  /** Changing one job that is not over. */
  lemma OneChanges(jobs: seq<Job>, id: nat, job: Job)
    requires JobsFit(jobs) && id < |jobs| && JobFits(jobs, job)
    requires !jobs[id].status.Terminal()
    requires job.kind == jobs[id].kind && job.priority == jobs[id].priority && job.dependsOn == jobs[id].dependsOn
    ensures Saved(jobs, id, job) == jobs[id := job]
    ensures JobsProgress(jobs, jobs[id := job]) && JobsFit(jobs[id := job])
  {
    var jobs1 := jobs[id := job];
    assert JobsProgress(jobs, jobs1);
    forall j | 0 <= j < |jobs1| ensures JobFits(jobs1, jobs1[j]) {
      FitsOn(jobs, jobs1, jobs1[j]);
    }
  }

  lemma ProgressChains(a: seq<Job>, b: seq<Job>, c: seq<Job>)
    requires JobsProgress(a, b) && JobsProgress(b, c)
    ensures JobsProgress(a, c)
  {
  }

  /** What a step may do to a fitting state. */
  predicate Kept(s: State, s1: State) {
    JobsProgress(s.jobs, s1.jobs) && JobsFit(s1.jobs) && (TasksFit(s) ==> TasksFit(s1))
  }

  lemma KeptOn(a: State, b: State, c: State)
    requires Kept(a, b) && Kept(b, c)
    ensures Kept(a, c)
  {
    ProgressChains(a.jobs, b.jobs, c.jobs);
  }

  lemma SubmitKeeps(s: State, job: NewJob)
    requires JobsFit(s.jobs)
    ensures Kept(s, Submitted(s, job))
  {
    var s1 := Submitted(s, job);
    assert JobsProgress(s.jobs, s1.jobs);
    forall j | 0 <= j < |s1.jobs| ensures JobFits(s1.jobs, s1.jobs[j]) {
      if j < |s.jobs| {
        FitsOn(s.jobs, s1.jobs, s.jobs[j]);
      }
    }
  }

  /** A status that is neither terminal nor running. */
  predicate Idle(status: JobStatus) {
    status in {Queued, Pausing, Paused, Resuming, Blocked}
  }

  lemma StatusKeeps(s: State, id: nat, status: JobStatus)
    requires JobsFit(s.jobs) && id < |s.jobs| && !s.jobs[id].status.Terminal() && Idle(status)
    ensures SetStatus(s, id, status).jobs == s.jobs[id := s.jobs[id].(status := status)]
    ensures Kept(s, SetStatus(s, id, status))
  {
    OneChanges(s.jobs, id, s.jobs[id].(status := status));
  }

  lemma JobCallsKeep(s: State, id: nat)
    requires JobsFit(s.jobs)
    ensures Kept(s, PauseRequested(s, id)) && Kept(s, ResumeRequested(s, id))
  {
    if id < |s.jobs| && !s.jobs[id].status.Terminal() {
      StatusKeeps(s, id, Paused);
      StatusKeeps(s, id, Pausing);
      StatusKeeps(s, id, Resuming);
    }
    hide SetStatus;
    hide JobsFit;
    hide JobsProgress;
    if id < |s.jobs| && s.jobs[id].status == Paused {
      var s1 := SetStatus(s, id, Resuming);
      var s2 := ResumeRequested(s, id);
      assert s2.jobs == s1.jobs;
      if TasksFit(s) {
        assert forall i :: 0 <= i < |s1.tasks| ==> TaskFits(s1.jobs, s1.tasks[i]) ==> TaskFits(s2.jobs, s2.tasks[i]);
      }
    }
  }

  lemma CancelKeeps(s: State, id: nat)
    requires JobsFit(s.jobs)
    ensures Kept(s, CancelRequested(s, id))
  {
    if id < |s.jobs| && !s.jobs[id].status.Terminal() {
      OneChanges(s.jobs, id, s.jobs[id].(status := Cancelled, reason := Some(UserStopped)));
      hide JobsFit;
      hide JobsProgress;
    }
  }

  lemma RecoverKeeps(s: State, id: nat, now: int)
    requires JobsFit(s.jobs) && id < |s.jobs|
    ensures Kept(s, Recovered(s, id, now))
  {
    var tasks := Changed(s.tasks, id, Reclaimed(now), |s.tasks|);
    var s1 := s.(tasks := tasks);
    if !s.jobs[id].status.Terminal() {
      assert Kept(s, s1);
      StatusKeeps(s1, id, Queued);
      OneChanges(s.jobs, id, s.jobs[id].(status := Failed, reason := Some(Failure)));
      KeptOn(s, s1, SetStatus(s1, id, Queued));
    }
    hide JobsFit;
    hide JobsProgress;
    hide SetStatus;
    hide HasHeld;
  }

  lemma {:induction false} ReconcileKeeps(s: State, now: int, n: nat)
    requires JobsFit(s.jobs) && n <= |s.jobs|
    ensures Kept(s, Reconciled(s, now, n))
  {
    hide Kept;
    hide Recovered;
    if n > 0 {
      ReconcileKeeps(s, now, n - 1);
      var s1 := Reconciled(s, now, n - 1);
      KeptFits(s, s1);
      RecoverKeeps(s1, n - 1, now);
      KeptOn(s, s1, Recovered(s1, n - 1, now));
    } else {
      KeptSame(s);
    }
  }

  lemma KeptFits(s: State, s1: State)
    requires Kept(s, s1)
    ensures JobsFit(s1.jobs)
  {
  }

  lemma KeptSame(s: State)
    requires JobsFit(s.jobs)
    ensures Kept(s, s)
  {
  }

  lemma {:induction false} PromoteKeeps(s: State, ids: seq<nat>)
    requires JobsFit(s.jobs) && Rows(ids, |s.jobs|)
    ensures Kept(s, Promoted(s, ids))
  {
    hide Kept;
    hide SetStatus;
    if ids != [] {
      var n := |ids| - 1;
      PromoteKeeps(s, ids[..n]);
      var s1 := Promoted(s, ids[..n]);
      KeptFits(s, s1);
      KeptSame(s1);
      if s1.jobs[ids[n]].status == Blocked {
        StatusKeeps(s1, ids[n], Queued);
      }
      KeptOn(s, s1, Unblocked(s1, ids[n]));
    } else {
      KeptSame(s);
    }
  }

  lemma StartKeeps(s: State, id: nat)
    requires JobsFit(s.jobs) && id < |s.jobs| && s.jobs[id].status in {Queued, Resuming}
    requires DependenciesMet(s.jobs, s.jobs[id].dependsOn)
    ensures SetStatus(s, id, Running).jobs == s.jobs[id := s.jobs[id].(status := Running)]
    ensures Kept(s, SetStatus(s, id, Running))
  {
    OneChanges(s.jobs, id, s.jobs[id].(status := Running));
  }

  lemma FinaliseKeeps(s: State, id: nat)
    requires JobsFit(s.jobs) && id < |s.jobs| && s.jobs[id].status == Running && !HasLive(s.tasks, id)
    ensures Kept(s, Finalised(s, id))
  {
    var job := s.jobs[id];
    OneChanges(s.jobs, id, job.(status := FailedPartial, reason := Some(Failure)));
    OneChanges(s.jobs, id, job.(status := Failed, reason := Some(Failure)));
    OneChanges(s.jobs, id, job.(status := Completed, reason := Or(job.reason, Convergence)));
    hide JobsFit;
    hide JobsProgress;
  }

  lemma AdvanceOneKeeps(cfg: Config, s: State, id: nat)
    requires JobsFit(s.jobs) && id < |s.jobs|
    ensures Kept(s, AdvancedOne(cfg, s, id))
  {
    var job := s.jobs[id];
    KeptSame(s);
    if !job.status.Terminal() {
      StatusKeeps(s, id, Paused);
      StatusKeeps(s, id, Blocked);
    }
    if job.status == Running && !HasLive(s.tasks, id) {
      FinaliseKeeps(s, id);
    }
    if job.status in {Queued, Resuming} && DependenciesMet(s.jobs, job.dependsOn) {
      StartKeeps(s, id);
      var s1 := SetStatus(s, id, Running);
      KeptFits(s, s1);
      if !HasLive(s.tasks, id) {
        FinaliseKeeps(s1, id);
        KeptOn(s, s1, Finalised(s1, id));
      }
    }
    assert job.status != Completing;
    hide Kept;
    hide JobsFit;
    hide AtCap;
    hide Finalised;
    hide HasLive;
    hide HasHeld;
    hide HasTask;
    hide DependenciesMet;
  }

  lemma {:induction false} AdvanceKeeps(cfg: Config, s: State, ids: seq<nat>, only: Option<nat>)
    requires JobsFit(s.jobs) && Rows(ids, |s.jobs|)
    ensures Kept(s, AdvancedAll(cfg, s, ids, only))
  {
    hide Kept;
    hide AdvancedOne;
    if ids != [] {
      var n := |ids| - 1;
      AdvanceKeeps(cfg, s, ids[..n], only);
      var s1 := AdvancedAll(cfg, s, ids[..n], only);
      KeptFits(s, s1);
      AdvanceOneKeeps(cfg, s1, ids[n]);
      KeptOn(s, s1, AdvancedOne(cfg, s1, ids[n]));
    } else {
      KeptSame(s);
    }
  }

  lemma TaskCallsKeep(cfg: Config, s: State, step: Step)
    requires JobsFit(s.jobs)
    requires step.Claim? || step.Heartbeat? || step.Finish? || step.Release?
    ensures Kept(s, Apply(cfg, s, step))
  {
    if step.Claim? {
      TaskFencing.PickClaimable(cfg, s, step.now, 0);
    }
    hide JobsFit;
    assert JobsProgress(s.jobs, s.jobs);
    hide JobsProgress;
  }

  lemma StepKeeps(cfg: Config, s: State, step: Step)
    requires JobsFit(s.jobs) && !step.Retry?
    ensures Kept(s, Apply(cfg, s, step))
  {
    hide Kept;
    match step
    case Submit(job) => SubmitKeeps(s, job);
    case Pause(id) => JobCallsKeep(s, id);
    case Resume(id) => JobCallsKeep(s, id);
    case Cancel(id) => CancelKeeps(s, id);
    case Reconcile(now) => ReconcileKeeps(s, now, |s.jobs|);
    case Promote => PromoteKeeps(s, Listed(s.jobs, Some(Blocked)));
    case Advance(only) => AdvanceKeeps(cfg, s, Listed(s.jobs, None), only);
    case _ => TaskCallsKeep(cfg, s, step);
  }

  /** Over every run from a fitting state: terminal jobs never change, and running and completed
      jobs have all their dependencies completed. */
  lemma {:induction false} JobsStayFit(cfg: Config, s: State, steps: seq<Step>)
    requires JobsFit(s.jobs)
    ensures var s1 := Run(cfg, s, steps); JobsProgress(s.jobs, s1.jobs) && JobsFit(s1.jobs)
  {
    hide Apply;
    if steps != [] {
      var n := |steps| - 1;
      JobsStayFit(cfg, s, steps[..n]);
      var s1 := Run(cfg, s, steps[..n]);
      StepKeepsJobs(cfg, s1, steps[n]);
      ProgressChains(s.jobs, s1.jobs, Apply(cfg, s1, steps[n]).jobs);
    }
  }

  lemma StepKeepsJobs(cfg: Config, s: State, step: Step)
    requires JobsFit(s.jobs)
    ensures var s1 := Apply(cfg, s, step); JobsProgress(s.jobs, s1.jobs) && JobsFit(s1.jobs)
  {
    if !step.Retry? {
      StepKeeps(cfg, s, step);
      hide Apply;
    }
  }

  /** Without manual retries a terminal job never has a live task again, and a completed job
      has no dead letter among its tasks. */
  lemma {:induction false} TasksStayFit(cfg: Config, s: State, steps: seq<Step>)
    requires JobsFit(s.jobs) && TasksFit(s) && TaskFencing.NoRetries(steps)
    ensures TasksFit(Run(cfg, s, steps))
  {
    hide Apply;
    if steps != [] {
      var n := |steps| - 1;
      TasksStayFit(cfg, s, steps[..n]);
      JobsStayFit(cfg, s, steps[..n]);
      StepKeeps(cfg, Run(cfg, s, steps[..n]), steps[n]);
    }
  }

  // ------------------------------------------------------------------ how a job completes

  predicate HasCompleted(jobs: seq<Job>, j: nat) {
    j < |jobs| && jobs[j].status == Completed
  }

  lemma {:induction false} ReconcileCompletesNone(s: State, now: int, n: nat, j: nat)
    requires n <= |s.jobs|
    ensures HasCompleted(Reconciled(s, now, n).jobs, j) ==> HasCompleted(s.jobs, j)
  {
    hide HasLive;
    hide HasHeld;
    hide HasDead;
    if n > 0 {
      ReconcileCompletesNone(s, now, n - 1, j);
    }
  }

  lemma {:induction false} PromoteCompletesNone(s: State, ids: seq<nat>, j: nat)
    requires Rows(ids, |s.jobs|)
    ensures HasCompleted(Promoted(s, ids).jobs, j) ==> HasCompleted(s.jobs, j)
  {
    hide DependenciesMet;
    if ids != [] {
      PromoteCompletesNone(s, ids[..|ids| - 1], j);
    }
  }

  lemma AdvanceOneCompletes(cfg: Config, s: State, id: nat, j: nat)
    requires id < |s.jobs| && JobsFit(s.jobs)
    ensures var s1 := AdvancedOne(cfg, s, id);
      HasCompleted(s1.jobs, j) && !HasCompleted(s.jobs, j) ==>
        !HasLive(s.tasks, j) && !HasDead(s.tasks, j) && DependenciesMet(s.jobs, s.jobs[j].dependsOn)
  {
    hide AtCap;
    hide HasHeld;
    hide HasTask;
    hide DependenciesMet;
    hide HasLive;
    hide HasDead;
    hide HasDone;
  }

  lemma {:induction false} AdvanceCompletes(cfg: Config, s: State, ids: seq<nat>, only: Option<nat>, j: nat)
    requires Rows(ids, |s.jobs|) && JobsFit(s.jobs)
    ensures var s1 := AdvancedAll(cfg, s, ids, only);
      HasCompleted(s1.jobs, j) && !HasCompleted(s.jobs, j) ==>
        !HasLive(s.tasks, j) && !HasDead(s.tasks, j) && DependenciesMet(s1.jobs, s1.jobs[j].dependsOn)
  {
    hide AdvancedOne;
    hide HasLive;
    hide HasDead;
    if ids != [] {
      var n := |ids| - 1;
      AdvanceCompletes(cfg, s, ids[..n], only, j);
      AdvanceKeeps(cfg, s, ids[..n], only);
      AdvanceKeeps(cfg, s, ids, only);
      var s1 := AdvancedAll(cfg, s, ids[..n], only);
      AdvanceOneCompletes(cfg, s1, ids[n], j);
      hide DependenciesMet;
      if j < |s1.jobs| {
        assert JobFits(AdvancedAll(cfg, s, ids, only).jobs, AdvancedAll(cfg, s, ids, only).jobs[j]);
      }
    }
  }

  /** A job completes only when it is moved forward with all dependencies completed and neither
      live tasks nor dead letters; manual retries make no difference to that. */
  lemma CompletesOnlyWhenDone(cfg: Config, s: State, step: Step, j: nat)
    requires JobsFit(s.jobs)
    requires HasCompleted(Apply(cfg, s, step).jobs, j) && !HasCompleted(s.jobs, j)
    ensures step.Advance? && !HasLive(s.tasks, j) && !HasDead(s.tasks, j)
    ensures j < |s.jobs| && DependenciesMet(Apply(cfg, s, step).jobs, s.jobs[j].dependsOn)
  {
    StepKeepsJobs(cfg, s, step);
    hide HasLive;
    hide HasDead;
    match step
    case Reconcile(now) => ReconcileCompletesNone(s, now, |s.jobs|, j);
    case Promote => PromoteCompletesNone(s, Listed(s.jobs, Some(Blocked)), j);
    case Advance(only) => AdvanceCompletes(cfg, s, Listed(s.jobs, None), only, j);
    case _ =>
  }

  /** The row guard on its own: whatever stale records are saved, in whatever order, a terminal
      row stays terminal. */
  lemma {:induction false} TerminalRowsAbsorb(jobs: seq<Job>, id: nat, writes: seq<Job>)
    requires id < |jobs| && jobs[id].status.Terminal()
    ensures SavedAll(jobs, id, writes)[id].status.Terminal()
  {
    if writes != [] {
      TerminalRowsAbsorb(jobs, id, writes[..|writes| - 1]);
    }
  }

  function SavedAll(jobs: seq<Job>, id: nat, writes: seq<Job>): (r: seq<Job>)
    requires id < |jobs|
    ensures |r| == |jobs|
  {
    if writes == [] then jobs else Saved(SavedAll(jobs, id, writes[..|writes| - 1]), id, writes[|writes| - 1])
  }
}
