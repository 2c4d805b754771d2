/** How jobs end and how they pause: the status and the reason of a finished job are those of its tasks,
    a running job pauses only once nobody holds its tasks, and no job is left behind by the calls
    that move it on. */
module JobOutcomes {
  import opened Options
  import opened Scheduling
  import opened TaskFencing
  import JobSafety

  // ------------------------------------------------------------------ how jobs end

  /** What the status and the reason of a job say about its tasks. */
  predicate Accounts(tasks: seq<Task>, job: Job, j: nat) {
    match job.status
    case Completed => job.reason == Some(Convergence)
    case FailedPartial => job.reason == Some(Failure) && HasDead(tasks, j) && HasDone(tasks, j)
    case Failed => job.reason == Some(Failure) && HasDead(tasks, j)
    case Cancelled => job.reason == Some(CompletionReason.UserStopped)
    case _ => job.reason == None
  }

  predicate AllAccount(s: State) {
    forall j :: 0 <= j < |s.jobs| ==> Accounts(s.tasks, s.jobs[j], j)
  }

  lemma EndedStay(tasks: seq<Task>, tasks1: seq<Task>, j: nat)
    requires TasksProgress(tasks, tasks1)
    ensures HasDead(tasks, j) ==> HasDead(tasks1, j)
    ensures HasDone(tasks, j) ==> HasDone(tasks1, j)
  {
    if HasDead(tasks, j) {
      var i :| 0 <= i < |tasks| && tasks[i].job == j && tasks[i].status == DeadLetter;
      assert Progress(tasks[i], tasks1[i]);
    }
    if HasDone(tasks, j) {
      var i :| 0 <= i < |tasks| && tasks[i].job == j && tasks[i].status == Succeeded;
      assert Progress(tasks[i], tasks1[i]);
    }
  }

  lemma TasksMoveOn(s: State, tasks: seq<Task>)
    requires AllAccount(s) && TasksProgress(s.tasks, tasks)
    ensures AllAccount(s.(tasks := tasks))
  {
    forall j | 0 <= j < |s.jobs| ensures Accounts(tasks, s.jobs[j], j) {
      EndedStay(s.tasks, tasks, j);
      assert Accounts(s.tasks, s.jobs[j], j);
    }
    hide TasksProgress;
    hide HasDead;
    hide HasDone;
  }

  lemma StatusAccounts(s: State, id: nat, status: JobStatus)
    requires AllAccount(s) && id < |s.jobs| && !status.Terminal()
    ensures AllAccount(SetStatus(s, id, status))
  {
    hide HasDead;
    hide HasDone;
  }

  lemma EndAccounts(s: State, id: nat, status: JobStatus, reason: Option<CompletionReason>)
    requires AllAccount(s) && id < |s.jobs| && Accounts(s.tasks, s.jobs[id].(status := status, reason := reason), id)
    ensures AllAccount(Concluded(s, id, status, reason))
  {
    hide HasDead;
    hide HasDone;
  }

  lemma RecoverAccounts(s: State, id: nat, now: int)
    requires AllAccount(s) && id < |s.jobs|
    ensures AllAccount(Recovered(s, id, now))
  {
    var tasks := Changed(s.tasks, id, Reclaimed(now), |s.tasks|);
    RecoverProgress(s, id, now);
    TasksReclaimed(s, id, now);
    var s1 := s.(tasks := tasks);
    TasksMoveOn(s, tasks);
    hide AllAccount;
    StatusAccounts(s1, id, Queued);
    hide HasLive;
    hide HasHeld;
    hide TasksProgress;
    if HasDead(tasks, id) {
      EndAccounts(s1, id, Failed, Some(Failure));
    }
    hide HasDead;
    hide SetStatus;
    hide Concluded;
  }

  lemma TasksReclaimed(s: State, id: nat, now: int)
    ensures TasksProgress(s.tasks, Changed(s.tasks, id, Reclaimed(now), |s.tasks|))
  {
  }

  lemma {:induction false} ReconcileAccounts(s: State, now: int, n: nat)
    requires AllAccount(s) && n <= |s.jobs|
    ensures AllAccount(Reconciled(s, now, n))
  {
    hide AllAccount;
    hide Recovered;
    if n > 0 {
      ReconcileAccounts(s, now, n - 1);
      RecoverAccounts(Reconciled(s, now, n - 1), n - 1, now);
    }
  }

  lemma {:induction false} PromoteAccounts(s: State, ids: seq<nat>)
    requires AllAccount(s) && Rows(ids, |s.jobs|)
    ensures AllAccount(Promoted(s, ids))
  {
    hide AllAccount;
    hide SetStatus;
    hide DependenciesMet;
    if ids != [] {
      PromoteAccounts(s, ids[..|ids| - 1]);
      StatusAccounts(Promoted(s, ids[..|ids| - 1]), ids[|ids| - 1], Queued);
    }
  }

  lemma FinalAccounts(s: State, id: nat)
    requires AllAccount(s) && id < |s.jobs| && !s.jobs[id].status.Terminal()
    ensures AllAccount(Finalised(s, id))
  {
    assert Accounts(s.tasks, s.jobs[id], id);
    hide AllAccount;
    hide HasDead;
    hide HasDone;
    hide Concluded;
    if HasDead(s.tasks, id) {
      EndAccounts(s, id, if HasDone(s.tasks, id) then FailedPartial else Failed, Some(Failure));
    } else {
      EndAccounts(s, id, Completed, Some(Convergence));
    }
  }

  lemma AdvanceOneAccounts(cfg: Config, s: State, id: nat)
    requires AllAccount(s) && id < |s.jobs|
    ensures AllAccount(AdvancedOne(cfg, s, id))
  {
    hide AllAccount;
    hide AtCap;
    hide HasLive;
    hide HasHeld;
    hide HasTask;
    hide DependenciesMet;
    StatusAccounts(s, id, Paused);
    StatusAccounts(s, id, Blocked);
    StatusAccounts(s, id, Running);
    var s1 := if s.jobs[id].status in {Queued, Resuming} then SetStatus(s, id, Running) else s;
    if s1.jobs[id].status in {Running, Completing} {
      FinalAccounts(s1, id);
    }
    hide Finalised;
    hide SetStatus;
  }

  lemma {:induction false} AdvanceAccounts(cfg: Config, s: State, ids: seq<nat>, only: Option<nat>)
    requires AllAccount(s) && Rows(ids, |s.jobs|)
    ensures AllAccount(AdvancedAll(cfg, s, ids, only))
  {
    hide AllAccount;
    hide AdvancedOne;
    if ids != [] {
      AdvanceAccounts(cfg, s, ids[..|ids| - 1], only);
      AdvanceOneAccounts(cfg, AdvancedAll(cfg, s, ids[..|ids| - 1], only), ids[|ids| - 1]);
    }
  }

  lemma SubmitAccounts(s: State, job: NewJob)
    requires AllAccount(s)
    ensures AllAccount(Submitted(s, job))
  {
    var s1 := Submitted(s, job);
    assert TasksProgress(s.tasks, s1.tasks);
    TasksMoveOn(s, s1.tasks);
    hide HasDead;
    hide HasDone;
    hide DependenciesMet;
    forall j | 0 <= j < |s1.jobs| ensures Accounts(s1.tasks, s1.jobs[j], j) {
      if j < |s.jobs| {
        assert Accounts(s1.tasks, s.jobs[j], j);
      }
    }
  }

  lemma CallsAccount(cfg: Config, s: State, step: Step)
    requires AllAccount(s) && (step.Pause? || step.Resume? || step.Cancel?)
    ensures AllAccount(Apply(cfg, s, step))
  {
    StepProgress(cfg, s, step);
    var s1 := s.(tasks := Apply(cfg, s, step).tasks);
    TasksMoveOn(s, s1.tasks);
    hide AllAccount;
    hide TasksProgress;
    hide Changed;
    if step.id < |s.jobs| {
      StatusAccounts(s1, step.id, Paused);
      StatusAccounts(s1, step.id, Pausing);
      StatusAccounts(s1, step.id, Resuming);
      EndAccounts(s1, step.id, Cancelled, Some(CompletionReason.UserStopped));
    }
  }

  lemma StepAccounts(cfg: Config, s: State, step: Step)
    requires AllAccount(s) && !step.Retry?
    ensures AllAccount(Apply(cfg, s, step))
  {
    hide AllAccount;
    match step
    case Submit(job) => SubmitAccounts(s, job);
    case Pause(_) => CallsAccount(cfg, s, step);
    case Resume(_) => CallsAccount(cfg, s, step);
    case Cancel(_) => CallsAccount(cfg, s, step);
    case Reconcile(now) => ReconcileAccounts(s, now, |s.jobs|);
    case Promote => PromoteAccounts(s, Listed(s.jobs, Some(Blocked)));
    case Advance(only) => AdvanceAccounts(cfg, s, Listed(s.jobs, None), only);
    case _ =>
      StepProgress(cfg, s, step);
      TasksMoveOn(s, Apply(cfg, s, step).tasks);
  }

  /** Over any interleaving without manual retries: a failed job has a dead task, a partially failed one a
      succeeded one besides, and the reason of a job is given once it is over, by the way it ended. */
  lemma {:induction false} JobsAccount(cfg: Config, steps: seq<Step>)
    requires NoRetries(steps)
    ensures AllAccount(Run(cfg, EMPTY, steps))
  {
    hide Apply;
    if steps != [] {
      var n := |steps| - 1;
      JobsAccount(cfg, steps[..n]);
      StepAccounts(cfg, Run(cfg, EMPTY, steps[..n]), steps[n]);
    }
  }

  // ------------------------------------------------------------------ how jobs pause

  /** Nobody holds a task of a paused job. */
  predicate PausedFree(s: State) {
    forall i :: 0 <= i < |s.tasks| && s.tasks[i].status.Held() && s.tasks[i].job < |s.jobs| ==> s.jobs[s.tasks[i].job].status != Paused
  }

  /** A pause that does not wait for the workers: the job has not been started, or waits, but somebody
      holds one of its tasks. */
  predicate Hasty(s: State, step: Step) {
    && step.Pause? && step.id < |s.jobs|
    && s.jobs[step.id].status in {Queued, Blocked, WaitingForUser}
    && HasHeld(s.tasks, step.id)
  }

  /** Jobs that become paused have no held task, and no further task is held of those that are. */
  predicate PausesFree(s: State, s1: State) {
    && |s.jobs| <= |s1.jobs|
    && (forall j :: 0 <= j < |s1.jobs| && s1.jobs[j].status == Paused ==>
          j < |s.jobs| && (s.jobs[j].status == Paused || !HasHeld(s.tasks, j)))
    && (forall i :: 0 <= i < |s1.tasks| && s1.tasks[i].status.Held() ==>
          i < |s.tasks| && s1.tasks[i].job == s.tasks[i].job
          && (s.tasks[i].status.Held() || (s.tasks[i].job < |s1.jobs| ==> s1.jobs[s.tasks[i].job].status != Paused)))
  }

  lemma FreeOn(s: State, s1: State)
    requires PausedFree(s) && PausesFree(s, s1)
    ensures PausedFree(s1)
  {
    forall i | 0 <= i < |s1.tasks| && s1.tasks[i].status.Held() && s1.tasks[i].job < |s1.jobs|
      ensures s1.jobs[s1.tasks[i].job].status != Paused
    {
      var j := s.tasks[i].job;
      if s.tasks[i].status.Held() && j < |s.jobs| {
        assert HasHeld(s.tasks, j);
      }
    }
  }

  lemma AdvanceOnePauses(cfg: Config, s: State, id: nat)
    requires id < |s.jobs|
    ensures PausesFree(s, AdvancedOne(cfg, s, id))
  {
    hide AtCap;
    hide HasLive;
    hide HasDead;
    hide HasDone;
    hide HasTask;
    hide DependenciesMet;
    hide HasHeld;
  }

  lemma {:induction false} AdvancePauses(cfg: Config, s: State, ids: seq<nat>, only: Option<nat>)
    requires PausedFree(s) && Rows(ids, |s.jobs|)
    ensures PausedFree(AdvancedAll(cfg, s, ids, only))
  {
    hide PausedFree;
    hide PausesFree;
    hide AdvancedOne;
    if ids != [] {
      var s1 := AdvancedAll(cfg, s, ids[..|ids| - 1], only);
      AdvancePauses(cfg, s, ids[..|ids| - 1], only);
      AdvanceOnePauses(cfg, s1, ids[|ids| - 1]);
      FreeOn(s1, AdvancedOne(cfg, s1, ids[|ids| - 1]));
    }
  }

  lemma RecoverPauses(s: State, id: nat, now: int)
    requires id < |s.jobs|
    ensures PausesFree(s, Recovered(s, id, now))
  {
    hide HasLive;
    hide HasDead;
    hide HasHeld;
  }

  lemma {:induction false} ReconcilePauses(s: State, now: int, n: nat)
    requires PausedFree(s) && n <= |s.jobs|
    ensures PausedFree(Reconciled(s, now, n))
  {
    hide PausedFree;
    hide PausesFree;
    hide Recovered;
    if n > 0 {
      var s1 := Reconciled(s, now, n - 1);
      ReconcilePauses(s, now, n - 1);
      RecoverPauses(s1, n - 1, now);
      FreeOn(s1, Recovered(s1, n - 1, now));
    }
  }

  lemma {:induction false} PromotePauses(s: State, ids: seq<nat>)
    requires PausedFree(s) && Rows(ids, |s.jobs|)
    ensures PausedFree(Promoted(s, ids))
  {
    hide DependenciesMet;
    if ids != [] {
      var s1 := Promoted(s, ids[..|ids| - 1]);
      PromotePauses(s, ids[..|ids| - 1]);
      assert PausesFree(s1, Unblocked(s1, ids[|ids| - 1]));
      FreeOn(s1, Unblocked(s1, ids[|ids| - 1]));
    }
    hide PausedFree;
  }

  lemma TaskCallPauses(cfg: Config, s: State, step: Step)
    requires step.Claim? || step.Heartbeat? || step.Finish? || step.Release? || step.Retry? || step.Submit? || step.Cancel? || step.Resume?
    ensures PausesFree(s, Apply(cfg, s, step))
  {
    hide DependenciesMet;
    hide HasHeld;
    if step.Claim? {
      PickClaimable(cfg, s, step.now, 0);
    }
    hide Pick;
  }

  lemma PausePauses(cfg: Config, s: State, id: nat)
    requires !Hasty(s, Pause(id))
    ensures PausesFree(s, Apply(cfg, s, Pause(id)))
  {
    hide HasHeld;
  }

  lemma HastyLeavesHeld(cfg: Config, s: State, id: nat)
    requires Hasty(s, Pause(id))
    ensures !PausedFree(Apply(cfg, s, Pause(id)))
  {
    var i :| 0 <= i < |s.tasks| && s.tasks[i].job == id && s.tasks[i].status.Held();
    var s1 := Apply(cfg, s, Pause(id));
    assert s1.tasks[i] == s.tasks[i] && s1.jobs[id].status == Paused;
  }

  /** A call lets somebody hold a task of a paused job exactly when it is a hasty pause. */
  lemma PausesFreeExactlyWhen(cfg: Config, s: State, step: Step)
    requires PausedFree(s)
    ensures PausedFree(Apply(cfg, s, step)) <==> !Hasty(s, step)
  {
    hide PausedFree;
    hide PausesFree;
    match step
    case Pause(id) =>
      if Hasty(s, step) {
        HastyLeavesHeld(cfg, s, id);
      } else {
        PausePauses(cfg, s, id);
        FreeOn(s, Apply(cfg, s, step));
      }
    case Advance(only) => AdvancePauses(cfg, s, Listed(s.jobs, None), only);
    case Reconcile(now) => ReconcilePauses(s, now, |s.jobs|);
    case Promote => PromotePauses(s, Listed(s.jobs, Some(Blocked)));
    case _ =>
      TaskCallPauses(cfg, s, step);
      FreeOn(s, Apply(cfg, s, step));
  }

  predicate NeverHasty(cfg: Config, steps: seq<Step>) {
    forall k :: 0 <= k < |steps| ==> !Hasty(Run(cfg, EMPTY, steps[..k]), steps[k])
  }

  /** Over any interleaving without hasty pauses, manual retries included, a job is paused only while
      nobody holds one of its tasks. */
  lemma {:induction false} PausedMeansFree(cfg: Config, steps: seq<Step>)
    requires NeverHasty(cfg, steps)
    ensures PausedFree(Run(cfg, EMPTY, steps))
  {
    hide Apply;
    hide Hasty;
    if steps != [] {
      var n := |steps| - 1;
      assert forall k :: 0 <= k < n ==> steps[..n][k] == steps[k] && steps[..n][..k] == steps[..k];
      PausedMeansFree(cfg, steps[..n]);
      PausesFreeExactlyWhen(cfg, Run(cfg, EMPTY, steps[..n]), steps[n]);
      hide PausedFree;
    }
  }

  /** A queued job one of whose tasks has just been claimed is paused at once, while the task is worked on. */
  lemma PausedWhileHeld(cfg: Config, worker: string)
    requires |cfg.caps| > 0 && cfg.caps[0] > 0
    ensures var s := Run(cfg, EMPTY, [Submit(ERRAND)] + [Claim(worker, 0)] + [Pause(0)]);
      Owns(s, 0, worker, Some(1)) && s.tasks[0].job == 0 && |s.jobs| == 1 && s.jobs[0].status == Paused && !PausedFree(s)
  {
    ErrandClaimed(cfg, worker);
    RunOn(cfg, EMPTY, [Submit(ERRAND)] + [Claim(worker, 0)], Pause(0));
    hide Run;
    var s := OnErrand(cfg, worker);
    assert Hasty(s, Pause(0)) by { assert s.tasks[0].status.Held(); }
    HastyLeavesHeld(cfg, s, 0);
  }

  // ------------------------------------------------------------------ nobody is left behind

  /** A job that has tasks, or may do without. */
  predicate Advances(s: State, id: nat) {
    id < |s.jobs| && id in Listed(s.jobs, None) && (HasTask(s.tasks, id) || s.jobs[id].kind.Taskless())
  }

  lemma AdvanceTwice(cfg: Config, s: State, id: nat)
    requires id < |s.jobs|
    ensures AdvancedOne(cfg, AdvancedOne(cfg, s, id), id) == AdvancedOne(cfg, s, id)
  {
    var s1 := AdvancedOne(cfg, s, id);
    hide HasLive;
    hide HasDead;
    hide HasDone;
    hide HasTask;
    hide HasHeld;
    hide AtCap;
    assert s1.tasks == s.tasks;
    assert s1.jobs[id].status == Running ==> s.jobs[id].status == Running || DependenciesMet(s.jobs, s.jobs[id].dependsOn);
  }

  lemma {:induction false} OnlyOneAdvances(cfg: Config, s: State, ids: seq<nat>, id: nat)
    requires Rows(ids, |s.jobs|) && id < |s.jobs|
    ensures AdvancedAll(cfg, s, ids, Some(id)) == if id in ids then AdvancedOne(cfg, s, id) else s
  {
    hide AdvancedOne;
    if ids != [] {
      var n := |ids| - 1;
      OnlyOneAdvances(cfg, s, ids[..n], id);
      AdvanceTwice(cfg, s, id);
      assert ids == ids[..n] + [ids[n]];
    }
  }

  /** How a job ends whose tasks are all over. */
  function Ending(tasks: seq<Task>, id: nat): JobStatus {
    if !HasDead(tasks, id) then Completed else if HasDone(tasks, id) then FailedPartial else Failed
  }

  /** What moving a job forward makes of it: a pausing job is paused once nobody holds its tasks, a running
      one ends as its tasks did once all are over, and one that was asked to start runs, or ends, if its
      dependencies are met and the cap allows it, and is blocked if they are not. */
  lemma AdvanceSettles(cfg: Config, s: State, id: nat)
    requires Advances(s, id)
    ensures var job, job1 := s.jobs[id], Apply(cfg, s, Advance(Some(id))).jobs[id];
      && (job.status == Pausing ==> job1.status == if HasHeld(s.tasks, id) then Pausing else Paused)
      && (job.status == Running ==> job1.status == if HasLive(s.tasks, id) then Running else Ending(s.tasks, id))
      && (job.status in {Queued, Resuming} && !AtCap(cfg, s, job) ==>
            job1.status == if !DependenciesMet(s.jobs, job.dependsOn) then Blocked
                           else if HasLive(s.tasks, id) then Running else Ending(s.tasks, id))
  {
    OnlyOneAdvances(cfg, s, Listed(s.jobs, None), id);
    hide HasLive;
    hide HasDead;
    hide HasDone;
    hide HasTask;
    hide HasHeld;
    hide AtCap;
    hide DependenciesMet;
    hide Listed;
  }

  lemma MetAfterUnblocking(s: State, id: nat, dependsOn: seq<nat>)
    requires id < |s.jobs|
    ensures DependenciesMet(Unblocked(s, id).jobs, dependsOn) <==> DependenciesMet(s.jobs, dependsOn)
  {
  }

  lemma {:induction false} PromotedAt(s: State, ids: seq<nat>, id: nat)
    requires Rows(ids, |s.jobs|) && id < |s.jobs|
    ensures var s1 := Promoted(s, ids);
      && (forall dependsOn :: DependenciesMet(s1.jobs, dependsOn) <==> DependenciesMet(s.jobs, dependsOn))
      && s1.jobs[id] == if id in ids then Unblocked(s, id).jobs[id] else s.jobs[id]
  {
    hide DependenciesMet;
    if ids != [] {
      var n := |ids| - 1;
      PromotedAt(s, ids[..n], id);
      var s1 := Promoted(s, ids[..n]);
      forall dependsOn ensures DependenciesMet(Unblocked(s1, ids[n]).jobs, dependsOn) <==> DependenciesMet(s1.jobs, dependsOn) {
        MetAfterUnblocking(s1, ids[n], dependsOn);
      }
      assert ids == ids[..n] + [ids[n]];
    }
  }

  /** A blocked job that is listed is released exactly when its dependencies are met. */
  lemma PromoteSettles(cfg: Config, s: State, id: nat)
    requires id < |s.jobs| && id in Listed(s.jobs, Some(Blocked)) && s.jobs[id].status == Blocked
    ensures Apply(cfg, s, Promote).jobs[id].status == if DependenciesMet(s.jobs, s.jobs[id].dependsOn) then Queued else Blocked
  {
    PromotedAt(s, Listed(s.jobs, Some(Blocked)), id);
    hide Listed;
    hide DependenciesMet;
    hide Promoted;
  }

  /** A paused job that is resumed waits to be started, and those of its tasks that were to be retried wait too. */
  lemma ResumeSettles(cfg: Config, s: State, id: nat)
    requires id < |s.jobs| && s.jobs[id].status == Paused
    ensures var s1 := Apply(cfg, s, Resume(id));
      && s1.jobs[id].status == Resuming && |s1.tasks| == |s.tasks|
      && forall i :: 0 <= i < |s.tasks| ==>
        s1.tasks[i].status == if s.tasks[i].job == id && s.tasks[i].status == Retrying then Waiting else s.tasks[i].status
  {
  }

  lemma {:induction false} ReconcileElsewhere(s: State, now: int, n: nat, id: nat)
    requires n <= id < |s.jobs|
    ensures var s1 := Reconciled(s, now, n);
      && s1.jobs[id] == s.jobs[id] && |s1.tasks| == |s.tasks|
      && forall i :: 0 <= i < |s.tasks| && s.tasks[i].job == id ==> s1.tasks[i] == s.tasks[i]
  {
    hide HasLive;
    hide HasDead;
    hide HasHeld;
    if n > 0 {
      ReconcileElsewhere(s, now, n - 1, id);
    }
  }

  lemma ReconcileLater(s: State, now: int, n: nat, id: nat)
    requires id < n <= |s.jobs|
    ensures Reconciled(s, now, n).jobs[id] == Reconciled(s, now, id + 1).jobs[id]
    decreases n
  {
    hide HasLive;
    hide HasDead;
    hide HasHeld;
    if id + 1 < n {
      ReconcileLater(s, now, n - 1, id);
    }
  }

  lemma SameOfJob(tasks: seq<Task>, tasks1: seq<Task>, id: nat)
    requires |tasks| == |tasks1| && forall i :: 0 <= i < |tasks| ==> tasks1[i].job == tasks[i].job && (tasks[i].job == id ==> tasks1[i].status == tasks[i].status)
    ensures HasHeld(tasks1, id) == HasHeld(tasks, id)
    ensures HasDead(tasks1, id) == HasDead(tasks, id)
    ensures HasLive(tasks1, id) == HasLive(tasks, id)
  {
    assert forall i :: 0 <= i < |tasks| && tasks[i].job == id ==> tasks1[i].status == tasks[i].status;
  }

  lemma RecoverSettlesOne(s: State, id: nat, now: int)
    requires id < |s.jobs| && s.jobs[id].status.Active() && !HasHeld(s.tasks, id)
    ensures Recovered(s, id, now).jobs[id].status == if HasDead(s.tasks, id) && !HasLive(s.tasks, id) then Failed else Queued
  {
    var tasks := Changed(s.tasks, id, Reclaimed(now), |s.tasks|);
    assert forall i :: 0 <= i < |s.tasks| && s.tasks[i].job == id ==> !s.tasks[i].status.Held();
    SameOfJob(s.tasks, tasks, id);
    hide HasLive;
    hide HasDead;
    hide HasHeld;
  }

  /** A restart takes up every active job that nobody works on: it is queued again, unless only dead tasks
      are left of it; then it has failed. */
  lemma ReconcileSettles(cfg: Config, s: State, now: int, id: nat)
    requires id < |s.jobs| && s.jobs[id].status.Active() && !HasHeld(s.tasks, id)
    ensures Apply(cfg, s, Reconcile(now)).jobs[id].status == if HasDead(s.tasks, id) && !HasLive(s.tasks, id) then Failed else Queued
  {
    ReconcileElsewhere(s, now, id, id);
    ReconcileTasks(s, now, id);
    var s1 := Reconciled(s, now, id);
    SameOfJob(s.tasks, s1.tasks, id);
    RecoverSettlesOne(s1, id, now);
    ReconcileLater(s, now, |s.jobs|, id);
    hide Reconciled;
    hide Recovered;
    hide HasLive;
    hide HasDead;
    hide HasHeld;
    assert Reconciled(s, now, id + 1) == Recovered(s1, id, now) by { ReconcileNext(s, now, id); }
  }

  lemma ReconcileNext(s: State, now: int, id: nat)
    requires id < |s.jobs|
    ensures Reconciled(s, now, id + 1) == Recovered(Reconciled(s, now, id), id, now)
  {
  }

  lemma {:induction false} ReconcileTasks(s: State, now: int, n: nat)
    requires n <= |s.jobs|
    ensures var s1 := Reconciled(s, now, n);
      |s1.tasks| == |s.tasks| && forall i :: 0 <= i < |s.tasks| ==> s1.tasks[i].job == s.tasks[i].job
  {
    hide HasLive;
    hide HasDead;
    hide HasHeld;
    if n > 0 {
      ReconcileTasks(s, now, n - 1);
    }
  }
}
