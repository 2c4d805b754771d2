/** Which tasks are handed out before the dependencies of their job have completed, and which calls
    make that possible. */
module DependencyOrder {
  import opened Options
  import opened Scheduling
  import JobSafety
  import TaskFencing

  predicate Met(jobs: seq<Job>, job: nat) {
    job < |jobs| && DependenciesMet(jobs, jobs[job].dependsOn)
  }

  predicate Served(cfg: Config, profile: nat) {
    profile < |cfg.caps| && 0 < cfg.caps[profile]
  }

  /** Workers may come to hold the task. */
  predicate Servable(cfg: Config, t: Task) {
    t.status.Live() && Served(cfg, t.profile)
  }

  /** The job's tasks are withheld, or its dependencies have completed. */
  predicate InTurn(jobs: seq<Job>, job: nat) {
    job < |jobs| && (jobs[job].status.Withheld() || Met(jobs, job))
  }

  predicate AllInTurn(cfg: Config, s: State) {
    forall i :: 0 <= i < |s.tasks| ==> s.tasks[i].job < |s.jobs| && (Servable(cfg, s.tasks[i]) ==> InTurn(s.jobs, s.tasks[i].job))
  }

  predicate HasServable(cfg: Config, tasks: seq<Task>, job: nat) {
    exists i :: 0 <= i < |tasks| && tasks[i].job == job && Servable(cfg, tasks[i])
  }

  /** The job has something to hand out and is only waiting for its dependencies. */
  predicate HeldBack(cfg: Config, s: State, job: nat) {
    job < |s.jobs| && !Met(s.jobs, job) && HasServable(cfg, s.tasks, job)
  }

  /** Nothing is released that only waits for its dependencies: no paused job is resumed, no pausing one
      requeued by a restart, and no task of a job that is not withheld retried by hand. */
  predicate Orderly(cfg: Config, s: State, step: Step) {
    match step
    case Resume(id) => HeldBack(cfg, s, id) ==> s.jobs[id].status != Paused
    case Reconcile(_) => forall j :: 0 <= j < |s.jobs| && HeldBack(cfg, s, j) ==> RestsIfPausing(s, j)
    case Retry(i) => i < |s.tasks| && Served(cfg, s.tasks[i].profile) ==> InTurn(s.jobs, s.tasks[i].job)
    case _ => true
  }

  predicate RestsIfPausing(s: State, j: nat)
    requires j < |s.jobs|
  {
    s.jobs[j].status == Pausing ==> HasHeld(s.tasks, j)
  }

  predicate OrderlyRun(cfg: Config, s: State, steps: seq<Step>) {
    steps == [] || (OrderlyRun(cfg, s, steps[..|steps| - 1]) && Orderly(cfg, Run(cfg, s, steps[..|steps| - 1]), steps[|steps| - 1]))
  }

  /** A claim at the given time hands out a task of a job with dependencies that have not completed. */
  predicate HandsOutEarly(cfg: Config, s: State, now: int) {
    var i := Pick(cfg, s, now, 0);
    i.Some? && !Met(s.jobs, s.tasks[i.value].job)
  }

  // ------------------------------------------------------------------ orderly calls keep the order

  lemma {:induction false} PickServed(cfg: Config, s: State, now: int, profile: nat)
    requires profile <= |cfg.caps|
    ensures var i := Pick(cfg, s, now, profile);
      i.Some? ==> Served(cfg, s.tasks[i.value].profile) && Claimable(s, i.value, s.tasks[i.value].profile, now)
    decreases |cfg.caps| - profile
  {
    if profile < |cfg.caps| {
      PickServed(cfg, s, now, profile + 1);
    }
  }

  lemma InTurnIsNeverEarly(cfg: Config, s: State, now: int)
    requires AllInTurn(cfg, s)
    ensures !HandsOutEarly(cfg, s, now)
  {
    PickServed(cfg, s, now, 0);
    hide Pick;
  }

  lemma MetStays(jobs: seq<Job>, jobs1: seq<Job>, job: nat)
    requires JobSafety.JobsProgress(jobs, jobs1) && Met(jobs, job)
    ensures Met(jobs1, job)
  {
  }

  /** Changing one job's status, unless that makes it completed, changes no dependency. */
  lemma MetElsewhere(jobs: seq<Job>, id: nat, job: Job, j: nat)
    requires id < |jobs| && job.dependsOn == jobs[id].dependsOn && job.status != Completed && jobs[id].status != Completed
    ensures Met(jobs[id := job], j) <==> Met(jobs, j)
  {
  }

  /** Tasks as they were, but for one job's that are withheld, in turn or over. */
  lemma OneJobMoves(cfg: Config, s: State, s1: State, id: nat)
    requires AllInTurn(cfg, s) && id < |s.jobs| && JobSafety.JobsProgress(s.jobs, s1.jobs)
    requires |s1.tasks| == |s.tasks| && TaskFencing.TasksProgress(s.tasks, s1.tasks)
    requires forall j :: 0 <= j < |s.jobs| && j != id ==> s1.jobs[j] == s.jobs[j]
    requires InTurn(s1.jobs, id) || !HasServable(cfg, s1.tasks, id)
    ensures AllInTurn(cfg, s1)
  {
    forall i | 0 <= i < |s1.tasks|
      ensures s1.tasks[i].job < |s1.jobs| && (Servable(cfg, s1.tasks[i]) ==> InTurn(s1.jobs, s1.tasks[i].job))
    {
      assert TaskFencing.Progress(s.tasks[i], s1.tasks[i]);
      var job := s.tasks[i].job;
      if Servable(cfg, s1.tasks[i]) && job != id && Met(s.jobs, job) {
        MetStays(s.jobs, s1.jobs, job);
      }
    }
  }

  lemma SameTasksProgress(tasks: seq<Task>)
    ensures TaskFencing.TasksProgress(tasks, tasks)
  {
  }

  lemma SubmitInTurn(cfg: Config, s: State, job: NewJob)
    requires AllInTurn(cfg, s) && JobSafety.JobsFit(s.jobs)
    ensures AllInTurn(cfg, Submitted(s, job))
  {
    var s1 := Submitted(s, job);
    JobSafety.SubmitKeeps(s, job);
    forall i | 0 <= i < |s1.tasks|
      ensures s1.tasks[i].job < |s1.jobs| && (Servable(cfg, s1.tasks[i]) ==> InTurn(s1.jobs, s1.tasks[i].job))
    {
      if i < |s.tasks| {
        if Met(s.jobs, s.tasks[i].job) {
          MetStays(s.jobs, s1.jobs, s.tasks[i].job);
        }
      } else if DependenciesMet(s.jobs, job.dependsOn) {
        assert DependenciesMet(s1.jobs, job.dependsOn);
      }
    }
  }

  lemma JobCallsInTurn(cfg: Config, s: State, step: Step)
    requires AllInTurn(cfg, s) && JobSafety.JobsFit(s.jobs) && Orderly(cfg, s, step)
    requires step.Pause? || step.Resume? || step.Cancel?
    ensures AllInTurn(cfg, Apply(cfg, s, step))
  {
    var s1 := Apply(cfg, s, step);
    JobSafety.StepKeepsJobs(cfg, s, step);
    TaskFencing.StepProgress(cfg, s, step);
    if step.id < |s.jobs| && s1 != s {
      hide DependenciesMet;
      hide JobSafety.JobsFit;
      assert InTurn(s1.jobs, step.id) || !HasServable(cfg, s1.tasks, step.id) by {
        if step.Resume? {
          ResumeInTurn(cfg, s, step.id);
        }
      }
      OneJobMoves(cfg, s, s1, step.id);
    }
  }

  lemma ResumeInTurn(cfg: Config, s: State, id: nat)
    requires Orderly(cfg, s, Resume(id)) && id < |s.jobs| && s.jobs[id].status == Paused
    ensures var s1 := ResumeRequested(s, id); InTurn(s1.jobs, id) || !HasServable(cfg, s1.tasks, id)
  {
    var s1 := ResumeRequested(s, id);
    MetElsewhere(s.jobs, id, s.jobs[id].(status := Resuming), id);
    if HasServable(cfg, s1.tasks, id) {
      var i :| 0 <= i < |s1.tasks| && s1.tasks[i].job == id && Servable(cfg, s1.tasks[i]);
      assert s.tasks[i].job == id && Servable(cfg, s.tasks[i]);
    }
  }

  lemma RecoverInTurn(cfg: Config, s: State, id: nat, now: int)
    requires AllInTurn(cfg, s) && JobSafety.JobsFit(s.jobs) && id < |s.jobs|
    requires HeldBack(cfg, s, id) ==> RestsIfPausing(s, id)
    ensures AllInTurn(cfg, Recovered(s, id, now))
  {
    var s1 := Recovered(s, id, now);
    JobSafety.RecoverKeeps(s, id, now);
    TaskFencing.RecoverProgress(s, id, now);
    RecoveredInTurn(cfg, s, id, now);
    assert forall j :: 0 <= j < |s.jobs| && j != id ==> s1.jobs[j] == s.jobs[j];
    hide Recovered;
    OneJobMoves(cfg, s, s1, id);
  }

  lemma RecoveredInTurn(cfg: Config, s: State, id: nat, now: int)
    requires AllInTurn(cfg, s) && id < |s.jobs| && JobSafety.JobsProgress(s.jobs, Recovered(s, id, now).jobs)
    requires HeldBack(cfg, s, id) ==> RestsIfPausing(s, id)
    requires TaskFencing.TasksProgress(s.tasks, Recovered(s, id, now).tasks)
    ensures var s1 := Recovered(s, id, now); InTurn(s1.jobs, id) || !HasServable(cfg, s1.tasks, id)
  {
    var s1 := Recovered(s, id, now);
    if HasServable(cfg, s1.tasks, id) {
      var i :| 0 <= i < |s1.tasks| && s1.tasks[i].job == id && Servable(cfg, s1.tasks[i]);
      assert TaskFencing.Progress(s.tasks[i], s1.tasks[i]);
      assert Servable(cfg, s.tasks[i]) && s.tasks[i].job == id;
      assert HasServable(cfg, s.tasks, id) && InTurn(s.jobs, id);
      if Met(s.jobs, id) {
        MetStays(s.jobs, s1.jobs, id);
      }
    }
    hide JobSafety.JobsProgress;
    hide TaskFencing.TasksProgress;
    hide DependenciesMet;
    hide HasDead;
    hide HasLive;
  }

  /** Recovery of the first n jobs leaves the others and their tasks alone. */
  lemma {:induction false} ReconcileLeaves(s: State, now: int, n: nat, j: nat)
    requires n <= j < |s.jobs|
    ensures var s1 := Reconciled(s, now, n);
      && s1.jobs[j] == s.jobs[j] && |s1.tasks| == |s.tasks|
      && forall i :: 0 <= i < |s.tasks| ==> s1.tasks[i].job == s.tasks[i].job && (s.tasks[i].job == j ==> s1.tasks[i] == s.tasks[i])
  {
    hide HasLive;
    hide HasHeld;
    hide HasDead;
    if n > 0 {
      ReconcileLeaves(s, now, n - 1, j);
    }
  }

  lemma {:induction false} ReconcileInTurn(cfg: Config, s: State, now: int, n: nat)
    requires AllInTurn(cfg, s) && JobSafety.JobsFit(s.jobs) && Orderly(cfg, s, Reconcile(now)) && n <= |s.jobs|
    ensures AllInTurn(cfg, Reconciled(s, now, n)) && JobSafety.JobsFit(Reconciled(s, now, n).jobs)
  {
    hide AllInTurn;
    hide Recovered;
    hide Orderly;
    hide HeldBack;
    hide RestsIfPausing;
    hide JobSafety.JobsFit;
    if n > 0 {
      ReconcileInTurn(cfg, s, now, n - 1);
      var s1 := Reconciled(s, now, n - 1);
      StillResting(cfg, s, now, n - 1);
      RecoverInTurn(cfg, s1, n - 1, now);
      RecoverFits(s1, n - 1, now);
    }
  }

  lemma RecoverFits(s: State, id: nat, now: int)
    requires JobSafety.JobsFit(s.jobs) && id < |s.jobs|
    ensures JobSafety.JobsFit(Recovered(s, id, now).jobs)
  {
    JobSafety.RecoverKeeps(s, id, now);
    hide Recovered;
    hide JobSafety.JobsFit;
  }

  lemma StillResting(cfg: Config, s: State, now: int, n: nat)
    requires JobSafety.JobsFit(s.jobs) && Orderly(cfg, s, Reconcile(now)) && n < |s.jobs|
    ensures var s1 := Reconciled(s, now, n); HeldBack(cfg, s1, n) ==> RestsIfPausing(s1, n)
  {
    var s1 := Reconciled(s, now, n);
    ReconcileLeaves(s, now, n, n);
    JobSafety.ReconcileKeeps(s, now, n);
    if HeldBack(cfg, s1, n) {
      if Met(s.jobs, n) {
        MetStays(s.jobs, s1.jobs, n);
      }
      SameTasks(cfg, s.tasks, s1.tasks, n);
      assert HeldBack(cfg, s, n);
    }
    hide Reconciled;
    hide JobSafety.JobsFit;
    hide JobSafety.JobsProgress;
    hide DependenciesMet;
  }

  lemma SameTasks(cfg: Config, tasks: seq<Task>, tasks1: seq<Task>, j: nat)
    requires |tasks1| == |tasks|
    requires forall i :: 0 <= i < |tasks| ==> tasks1[i].job == tasks[i].job && (tasks[i].job == j ==> tasks1[i] == tasks[i])
    ensures HasServable(cfg, tasks1, j) <==> HasServable(cfg, tasks, j)
    ensures HasHeld(tasks1, j) <==> HasHeld(tasks, j)
  {
    if HasServable(cfg, tasks, j) {
      var i :| 0 <= i < |tasks| && tasks[i].job == j && Servable(cfg, tasks[i]);
      assert tasks1[i] == tasks[i];
    }
    if HasHeld(tasks, j) {
      var i :| 0 <= i < |tasks| && tasks[i].job == j && tasks[i].status.Held();
      assert tasks1[i] == tasks[i];
    }
  }

  lemma UnblockInTurn(cfg: Config, s: State, id: nat)
    requires AllInTurn(cfg, s) && JobSafety.JobsFit(s.jobs) && id < |s.jobs|
    ensures AllInTurn(cfg, Unblocked(s, id)) && JobSafety.JobsFit(Unblocked(s, id).jobs)
  {
    if s.jobs[id].status == Blocked && Met(s.jobs, id) {
      JobSafety.StatusKeeps(s, id, Queued);
      MetElsewhere(s.jobs, id, s.jobs[id].(status := Queued), id);
      SameTasksProgress(s.tasks);
      OneJobMoves(cfg, s, SetStatus(s, id, Queued), id);
    }
    hide AllInTurn;
    hide JobSafety.JobsFit;
    hide TaskFencing.TasksProgress;
  }

  lemma {:induction false} PromoteInTurn(cfg: Config, s: State, ids: seq<nat>)
    requires AllInTurn(cfg, s) && JobSafety.JobsFit(s.jobs) && Rows(ids, |s.jobs|)
    ensures AllInTurn(cfg, Promoted(s, ids)) && JobSafety.JobsFit(Promoted(s, ids).jobs)
  {
    if ids != [] {
      PromoteInTurn(cfg, s, ids[..|ids| - 1]);
      UnblockInTurn(cfg, Promoted(s, ids[..|ids| - 1]), ids[|ids| - 1]);
    }
    hide AllInTurn;
    hide JobSafety.JobsFit;
    hide Unblocked;
  }

  /** A job that moves forward runs only with its dependencies completed, and ends only without live tasks. */
  lemma AdvancedTurn(cfg: Config, s: State, id: nat)
    requires AllInTurn(cfg, s) && JobSafety.JobsFit(s.jobs) && id < |s.jobs|
    requires JobSafety.JobsProgress(s.jobs, AdvancedOne(cfg, s, id).jobs)
    ensures var s1 := AdvancedOne(cfg, s, id); InTurn(s1.jobs, id) || !HasServable(cfg, s1.tasks, id)
  {
    var s1 := AdvancedOne(cfg, s, id);
    if Met(s.jobs, id) {
      MetStays(s.jobs, s1.jobs, id);
    } else {
      assert s.jobs[id].status != Running && s.jobs[id].status != Completing by {
        assert JobSafety.JobFits(s.jobs, s.jobs[id]);
      }
      if HasServable(cfg, s.tasks, id) {
        assert InTurn(s.jobs, id);
      }
      hide JobSafety.JobsProgress;
      hide JobSafety.JobsFit;
      hide AtCap;
      hide HasTask;
      hide HasHeld;
      hide HasLive;
      hide DependenciesMet;
      hide HasServable;
      assert s1.jobs[id].status.Withheld() || s1 == s;
    }
  }

  lemma AdvanceOneInTurn(cfg: Config, s: State, id: nat)
    requires AllInTurn(cfg, s) && JobSafety.JobsFit(s.jobs) && id < |s.jobs|
    ensures AllInTurn(cfg, AdvancedOne(cfg, s, id)) && JobSafety.JobsFit(AdvancedOne(cfg, s, id).jobs)
  {
    var s1 := AdvancedOne(cfg, s, id);
    JobSafety.AdvanceOneKeeps(cfg, s, id);
    AdvancedTurn(cfg, s, id);
    SameTasksProgress(s.tasks);
    OthersStay(cfg, s, id);
    hide AdvancedOne;
    OneJobMoves(cfg, s, s1, id);
  }

  lemma OthersStay(cfg: Config, s: State, id: nat)
    requires id < |s.jobs|
    ensures forall j :: 0 <= j < |s.jobs| && j != id ==> AdvancedOne(cfg, s, id).jobs[j] == s.jobs[j]
  {
    hide AtCap;
    hide HasTask;
    hide HasLive;
    hide HasHeld;
    hide HasDead;
    hide HasDone;
    hide DependenciesMet;
  }

  lemma {:induction false} AdvanceInTurn(cfg: Config, s: State, ids: seq<nat>, only: Option<nat>)
    requires AllInTurn(cfg, s) && JobSafety.JobsFit(s.jobs) && Rows(ids, |s.jobs|)
    ensures AllInTurn(cfg, AdvancedAll(cfg, s, ids, only)) && JobSafety.JobsFit(AdvancedAll(cfg, s, ids, only).jobs)
  {
    if ids != [] {
      AdvanceInTurn(cfg, s, ids[..|ids| - 1], only);
      AdvanceOneInTurn(cfg, AdvancedAll(cfg, s, ids[..|ids| - 1], only), ids[|ids| - 1]);
    }
    hide AllInTurn;
    hide JobSafety.JobsFit;
    hide AdvancedOne;
  }

  lemma TaskCallsInTurn(cfg: Config, s: State, step: Step)
    requires AllInTurn(cfg, s) && Orderly(cfg, s, step)
    requires step.Claim? || step.Heartbeat? || step.Finish? || step.Release? || step.Retry?
    ensures AllInTurn(cfg, Apply(cfg, s, step))
  {
    if step.Claim? {
      PickServed(cfg, s, step.now, 0);
    }
    hide Pick;
    hide InTurn;
  }

  lemma OrderlyKeeps(cfg: Config, s: State, step: Step)
    requires AllInTurn(cfg, s) && JobSafety.JobsFit(s.jobs) && Orderly(cfg, s, step)
    ensures AllInTurn(cfg, Apply(cfg, s, step))
  {
    hide AllInTurn;
    hide Orderly;
    hide JobSafety.JobsFit;
    match step
    case Submit(job) => SubmitInTurn(cfg, s, job);
    case Pause(_) => JobCallsInTurn(cfg, s, step);
    case Resume(_) => JobCallsInTurn(cfg, s, step);
    case Cancel(_) => JobCallsInTurn(cfg, s, step);
    case Reconcile(now) => ReconcileInTurn(cfg, s, now, |s.jobs|);
    case Promote => PromoteInTurn(cfg, s, Listed(s.jobs, Some(Blocked)));
    case Advance(only) => AdvanceInTurn(cfg, s, Listed(s.jobs, None), only);
    case _ => TaskCallsInTurn(cfg, s, step);
  }

  lemma {:induction false} OrderlyRunKeeps(cfg: Config, s: State, steps: seq<Step>)
    requires AllInTurn(cfg, s) && JobSafety.JobsFit(s.jobs) && OrderlyRun(cfg, s, steps)
    ensures AllInTurn(cfg, Run(cfg, s, steps)) && JobSafety.JobsFit(Run(cfg, s, steps).jobs)
  {
    hide Apply;
    hide AllInTurn;
    hide Orderly;
    hide JobSafety.JobsFit;
    if steps != [] {
      var n := |steps| - 1;
      OrderlyRunKeeps(cfg, s, steps[..n]);
      OrderlyKeeps(cfg, Run(cfg, s, steps[..n]), steps[n]);
      JobSafety.StepKeepsJobs(cfg, Run(cfg, s, steps[..n]), steps[n]);
    }
  }

  /** Over every orderly run of any number of workers, no claim hands out a task before the
      dependencies of its job have completed. */
  lemma HandedOutInTurn(cfg: Config, steps: seq<Step>, now: int)
    requires OrderlyRun(cfg, EMPTY, steps)
    ensures !HandsOutEarly(cfg, Run(cfg, EMPTY, steps), now)
  {
    OrderlyRunKeeps(cfg, EMPTY, steps);
    InTurnIsNeverEarly(cfg, Run(cfg, EMPTY, steps), now);
  }

  // ------------------------------------------------------------------ any other call lets one out early

  lemma {:induction false} RunOnto(cfg: Config, s: State, a: seq<Step>, b: seq<Step>)
    ensures Run(cfg, s, a + b) == Run(cfg, Run(cfg, s, a), b)
  {
    hide Apply;
    if b == [] {
      assert a + b == a;
    } else {
      assert (a + b)[..|a + b| - 1] == a + b[..|b| - 1];
      RunOnto(cfg, s, a, b[..|b| - 1]);
    }
  }

  /** What workers do on their own. */
  predicate Work(steps: seq<Step>) {
    forall k :: 0 <= k < |steps| ==> steps[k].Claim? || steps[k].Finish? || steps[k].Release?
  }

  lemma {:induction false} WorkIsOrderly(cfg: Config, s: State, steps: seq<Step>)
    requires Work(steps)
    ensures OrderlyRun(cfg, s, steps)
  {
    hide Apply;
    if steps != [] {
      WorkIsOrderly(cfg, s, steps[..|steps| - 1]);
    }
  }

  /** No lease reaches beyond the given time. */
  predicate AllExpired(tasks: seq<Task>, now: int) {
    forall i :: 0 <= i < |tasks| && tasks[i].lease.Some? ==> tasks[i].lease.value <= now
  }

  lemma {:induction false} Expires(tasks: seq<Task>) returns (now: int)
    ensures AllExpired(tasks, now)
  {
    now := 0;
    if tasks != [] {
      var n := |tasks| - 1;
      now := Expires(tasks[..n]);
      if tasks[n].lease.Some? && now < tasks[n].lease.value {
        now := tasks[n].lease.value;
      }
    }
  }

  lemma {:induction false} NobodyBusy(tasks: seq<Task>, profile: nat, now: int)
    requires AllExpired(tasks, now)
    ensures Busy(tasks, profile, now) == 0
  {
    if tasks != [] {
      NobodyBusy(tasks[..|tasks| - 1], profile, now);
    }
  }

  /** With every lease run out a claim hands out something as long as anything may be handed out. */
  lemma {:induction false} PicksSomething(cfg: Config, s: State, now: int, profile: nat, i: nat)
    requires AllExpired(s.tasks, now) && i < |s.tasks| && profile <= s.tasks[i].profile && Served(cfg, s.tasks[i].profile)
    requires Claimable(s, i, s.tasks[i].profile, now)
    ensures profile <= |cfg.caps| && Pick(cfg, s, now, profile).Some?
    decreases |cfg.caps| - profile
  {
    NobodyBusy(s.tasks, profile, now);
    if profile < s.tasks[i].profile {
      PicksSomething(cfg, s, now, profile + 1, i);
    }
  }

  ghost function LiveTasks(tasks: seq<Task>): set<nat> {
    set i: nat | i < |tasks| && tasks[i].status.Live()
  }

  /** The task has been claimed and finished at once. */
  function DoneAtOnce(cfg: Config, s: State, j: nat, now: int): State
    requires j < |s.tasks|
  {
    s.(tasks := s.tasks[j := Taken(cfg, s.tasks[j], "", now).(status := Succeeded, lease := None, savedLease := None)])
  }

  lemma ClaimedAndFinished(cfg: Config, s: State, now: int)
    requires Pick(cfg, s, now, 0).Some?
    ensures var j := Pick(cfg, s, now, 0).value;
      Run(cfg, s, [Claim("", now)] + [Finish(j, "", true, None)]) == DoneAtOnce(cfg, s, j, now)
  {
    var j := Pick(cfg, s, now, 0).value;
    TaskFencing.RunOn(cfg, s, [], Claim("", now));
    TaskFencing.RunOn(cfg, s, [Claim("", now)], Finish(j, "", true, None));
    hide Pick;
    hide Run;
  }

  /** Workers that go on claiming and finishing come to a task that nothing withholds any more. */
  lemma {:induction false} WorkersReach(cfg: Config, s: State, i: nat, now: int) returns (more: seq<Step>)
    requires i < |s.tasks| && Served(cfg, s.tasks[i].profile) && s.tasks[i].status in {Waiting, Retrying}
    requires s.tasks[i].job < |s.jobs| && !s.jobs[s.tasks[i].job].status.Withheld() && !Met(s.jobs, s.tasks[i].job)
    requires AllExpired(s.tasks, now)
    ensures Work(more) && HandsOutEarly(cfg, Run(cfg, s, more), now)
    decreases LiveTasks(s.tasks)
  {
    PicksSomething(cfg, s, now, 0, i);
    PickServed(cfg, s, now, 0);
    var j := Pick(cfg, s, now, 0).value;
    if !Met(s.jobs, s.tasks[j].job) {
      more := [];
    } else {
      hide DependenciesMet;
      ClaimedAndFinished(cfg, s, now);
      var s1 := DoneAtOnce(cfg, s, j, now);
      hide Pick;
      assert LiveTasks(s1.tasks) < LiveTasks(s.tasks) by {
        assert j in LiveTasks(s.tasks) && j !in LiveTasks(s1.tasks);
      }
      var rest := WorkersReach(cfg, s1, i, now);
      more := [Claim("", now)] + [Finish(j, "", true, None)] + rest;
      RunOnto(cfg, s, [Claim("", now)] + [Finish(j, "", true, None)], rest);
    }
  }

  /** Some orderly run from here on hands out a task early. */
  ghost predicate MayHandOutEarly(cfg: Config, s: State) {
    exists more, now :: OrderlyRun(cfg, s, more) && HandsOutEarly(cfg, Run(cfg, s, more), now)
  }

  /** A live task whose worker, if any, gives it back. */
  lemma GivenBack(cfg: Config, s: State, i: nat) returns (first: seq<Step>)
    requires i < |s.tasks| && s.tasks[i].status.Live()
    ensures Work(first)
    ensures var s1 := Run(cfg, s, first);
      && s1.jobs == s.jobs && i < |s1.tasks| && s1.tasks[i].status in {Waiting, Retrying}
      && s1.tasks[i].job == s.tasks[i].job && s1.tasks[i].profile == s.tasks[i].profile
  {
    if s.tasks[i].status.Held() {
      first := [Release(i, s.tasks[i].worker, None)];
      TaskFencing.RunOn(cfg, s, [], Release(i, s.tasks[i].worker, None));
    } else {
      first := [];
    }
  }

  /** A task out of turn is handed out by workers who merely go on working. */
  lemma OutOfTurnIsHandedOut(cfg: Config, s: State, i: nat)
    requires i < |s.tasks| && s.tasks[i].job < |s.jobs| && Servable(cfg, s.tasks[i]) && !InTurn(s.jobs, s.tasks[i].job)
    ensures MayHandOutEarly(cfg, s)
  {
    hide Run;
    hide HandsOutEarly;
    hide OrderlyRun;
    hide DependenciesMet;
    var first := GivenBack(cfg, s, i);
    var s1 := Run(cfg, s, first);
    var now := Expires(s1.tasks);
    hide AllExpired;
    var rest := WorkersReach(cfg, s1, i, now);
    RunOnto(cfg, s, first, rest);
    WorkIsOrderly(cfg, s, first + rest);
  }

  lemma {:induction false} ReconcileMetNothing(s: State, now: int, n: nat, j: nat)
    requires JobSafety.JobsFit(s.jobs) && n <= |s.jobs| && j < |s.jobs| && !Met(s.jobs, j)
    ensures !Met(Reconciled(s, now, n).jobs, j)
  {
    var jobs1 := Reconciled(s, now, n).jobs;
    JobSafety.ReconcileKeeps(s, now, n);
    var k :| 0 <= k < |s.jobs[j].dependsOn| && !(s.jobs[j].dependsOn[k] < |s.jobs| && s.jobs[s.jobs[j].dependsOn[k]].status == Completed);
    var d := s.jobs[j].dependsOn[k];
    JobSafety.ReconcileCompletesNone(s, now, n, d);
    assert jobs1[j].dependsOn[k] == d && !JobSafety.HasCompleted(s.jobs, d);
    hide Reconciled;
    hide JobSafety.JobsFit;
  }

  /** Recovery requeues a pausing job that only waits for its dependencies. */
  lemma RecoveryReleases(cfg: Config, s: State, now: int, j: nat)
    requires HeldBack(cfg, s, j) && !RestsIfPausing(s, j)
    ensures var s1 := Recovered(s, j, now); s1.jobs[j].status == Queued && HasServable(cfg, s1.tasks, j)
  {
    var i :| 0 <= i < |s.tasks| && s.tasks[i].job == j && Servable(cfg, s.tasks[i]);
    var tasks := Changed(s.tasks, j, Reclaimed(now), |s.tasks|);
    assert Servable(cfg, tasks[i]) && tasks[i].job == j;
    assert HasLive(tasks, j);
    hide HasDead;
    hide DependenciesMet;
  }

  /** When recovery comes to a job that is held back it still is. */
  lemma StillHeldBack(cfg: Config, s: State, now: int, j: nat)
    requires JobSafety.JobsFit(s.jobs) && HeldBack(cfg, s, j) && !RestsIfPausing(s, j)
    ensures var s1 := Reconciled(s, now, j); HeldBack(cfg, s1, j) && !RestsIfPausing(s1, j)
  {
    var s1 := Reconciled(s, now, j);
    ReconcileLeaves(s, now, j, j);
    SameTasks(cfg, s.tasks, s1.tasks, j);
    ReconcileMetNothing(s, now, j, j);
    hide Reconciled;
    hide Met;
    hide HasServable;
    hide HasHeld;
    hide JobSafety.JobsFit;
  }

  lemma RecoveryElsewhere(s: State, now: int, id: nat, j: nat)
    requires id < |s.jobs| && j < |s.jobs| && j != id
    ensures var s1 := Recovered(s, id, now);
      && s1.jobs[j] == s.jobs[j] && |s1.tasks| == |s.tasks|
      && forall i :: 0 <= i < |s.tasks| ==> s1.tasks[i].job == s.tasks[i].job && (s.tasks[i].job == j ==> s1.tasks[i] == s.tasks[i])
  {
    hide HasLive;
    hide HasHeld;
    hide HasDead;
  }

  lemma StaysReleased(cfg: Config, s: State, now: int, id: nat, j: nat)
    requires id < |s.jobs| && j < |s.jobs| && j != id && s.jobs[j].status == Queued && HasServable(cfg, s.tasks, j)
    ensures var s1 := Recovered(s, id, now); s1.jobs[j].status == Queued && HasServable(cfg, s1.tasks, j)
  {
    RecoveryElsewhere(s, now, id, j);
    SameTasks(cfg, s.tasks, Recovered(s, id, now).tasks, j);
    hide Recovered;
    hide HasServable;
  }

  /** What has been requeued stays so while the later jobs are recovered. */
  lemma {:induction false} ReconcileReleases(cfg: Config, s: State, now: int, n: nat, j: nat)
    requires JobSafety.JobsFit(s.jobs) && HeldBack(cfg, s, j) && !RestsIfPausing(s, j) && j < n <= |s.jobs|
    ensures var s1 := Reconciled(s, now, n); s1.jobs[j].status == Queued && HasServable(cfg, s1.tasks, j)
  {
    hide Recovered;
    hide HasServable;
    hide RestsIfPausing;
    hide HeldBack;
    hide JobSafety.JobsFit;
    if j == n - 1 {
      StillHeldBack(cfg, s, now, j);
      RecoveryReleases(cfg, Reconciled(s, now, j), now, j);
    } else {
      ReconcileReleases(cfg, s, now, n - 1, j);
      StaysReleased(cfg, Reconciled(s, now, n - 1), now, n - 1, j);
    }
  }

  lemma ResumeReleases(cfg: Config, s: State, id: nat) returns (i: nat)
    requires HeldBack(cfg, s, id) && s.jobs[id].status == Paused
    ensures var s1 := ResumeRequested(s, id);
      i < |s1.tasks| && s1.tasks[i].job < |s1.jobs| && Servable(cfg, s1.tasks[i]) && !InTurn(s1.jobs, s1.tasks[i].job)
  {
    i :| 0 <= i < |s.tasks| && s.tasks[i].job == id && Servable(cfg, s.tasks[i]);
    MetElsewhere(s.jobs, id, s.jobs[id].(status := Resuming), id);
  }

  /** Whatever is not orderly leaves a task out of turn. */
  lemma DisorderReleases(cfg: Config, s: State, step: Step) returns (i: nat)
    requires AllInTurn(cfg, s) && JobSafety.JobsFit(s.jobs) && !Orderly(cfg, s, step)
    ensures var s1 := Apply(cfg, s, step);
      i < |s1.tasks| && s1.tasks[i].job < |s1.jobs| && Servable(cfg, s1.tasks[i]) && !InTurn(s1.jobs, s1.tasks[i].job)
  {
    if step.Resume? {
      i := ResumeReleases(cfg, s, step.id);
    } else if step.Retry? {
      i := step.i;
    } else {
      assert step.Reconcile?;
      var j :| 0 <= j < |s.jobs| && HeldBack(cfg, s, j) && !RestsIfPausing(s, j);
      var s1 := Reconciled(s, step.now, |s.jobs|);
      ReconcileReleases(cfg, s, step.now, |s.jobs|, j);
      ReconcileMetNothing(s, step.now, |s.jobs|, j);
      i :| 0 <= i < |s1.tasks| && s1.tasks[i].job == j && Servable(cfg, s1.tasks[i]);
      hide Reconciled;
      hide Met;
    }
  }

  /** Which calls let tasks out early: after any orderly run, one more call makes it possible that a
      task is handed out before the dependencies of its job have completed exactly when that call
      resumes a paused job, requeues a pausing one or retries a task of a job that only waits for them. */
  lemma EarlyExactlyWhen(cfg: Config, steps: seq<Step>, step: Step)
    requires OrderlyRun(cfg, EMPTY, steps)
    ensures MayHandOutEarly(cfg, Apply(cfg, Run(cfg, EMPTY, steps), step)) <==> !Orderly(cfg, Run(cfg, EMPTY, steps), step)
  {
    var s := Run(cfg, EMPTY, steps);
    OrderlyRunKeeps(cfg, EMPTY, steps);
    var s1 := Apply(cfg, s, step);
    if Orderly(cfg, s, step) {
      OrderlyKeeps(cfg, s, step);
      JobSafety.StepKeepsJobs(cfg, s, step);
      forall more, now | OrderlyRun(cfg, s1, more) ensures !HandsOutEarly(cfg, Run(cfg, s1, more), now) {
        OrderlyRunKeeps(cfg, s1, more);
        InTurnIsNeverEarly(cfg, Run(cfg, s1, more), now);
      }
    } else {
      var i := DisorderReleases(cfg, s, step);
      OutOfTurnIsHandedOut(cfg, s1, i);
    }
    hide Apply;
    hide Run;
    hide Orderly;
    hide AllInTurn;
    hide HandsOutEarly;
    hide JobSafety.JobsFit;
  }
}
