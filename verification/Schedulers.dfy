/** The platform database and the persistent scheduler that works on it. */
module Schedulers {
  import opened Options
  import opened Scheduling

  /** Whether a fenced write was accepted, had no effect, or was refused because somebody else
      owns the task. */
  datatype Verdict = Accepted | Missing | Stale

  class PlatformDB {
    var jobs: seq<Job>
    var tasks: seq<Task>

    ghost function Now(): State
      reads this
    {
      State(jobs, tasks)
    }

    constructor ()
      ensures Now() == EMPTY
    {
      jobs, tasks := [], [];
    }

    /** The upsert keeps a terminal row unless another terminal status is written. */
    method SaveJob(id: nat, job: Job)
      requires id < |jobs|
      modifies this`jobs
      ensures jobs == Saved(old(jobs), id, job)
    {
      if !jobs[id].status.Terminal() || job.status.Terminal() {
        jobs := jobs[id := job];
      }
    }

    method SaveTask(i: nat, task: Task)
      requires i < |tasks|
      modifies this`tasks
      ensures tasks == old(tasks)[i := task.(lease := task.savedLease)]
    {
      tasks := tasks[i := task.(lease := task.savedLease)];
    }

    /** Hands out the most urgent free task of the first profile below its cap. */
    method ClaimNextTask(cfg: Config, worker: string, now: int) returns (claimed: Option<nat>)
      modifies this`tasks
      ensures claimed == Pick(cfg, old(Now()), now, 0)
      ensures Now() == Apply(cfg, old(Now()), Claim(worker, now))
    {
      var profile := 0;
      while profile < |cfg.caps|
        invariant profile <= |cfg.caps|
        invariant Pick(cfg, Now(), now, profile) == Pick(cfg, Now(), now, 0)
      {
        if Busy(tasks, profile, now) < cfg.caps[profile] {
          claimed := Choice(State(jobs, tasks), profile, now, |tasks|);
          if claimed.Some? {
            var task := tasks[claimed.value];
            tasks := tasks[claimed.value := task.(status := Executing, worker := worker, attempts := task.attempts + 1,
                                                  lease := Some(now + cfg.leaseSeconds), savedLease := Some(now + cfg.leaseSeconds))];
            return;
          }
        }
        profile := profile + 1;
      }
      return None;
    }

    method RenewLease(cfg: Config, i: nat, worker: string, fence: Option<nat>, now: int) returns (renewed: bool)
      modifies this`tasks
      ensures renewed <==> Owns(old(Now()), i, worker, fence)
      ensures Now() == Apply(cfg, old(Now()), Heartbeat(i, worker, fence, now))
    {
      if i >= |tasks| || !tasks[i].status.Held() || tasks[i].worker != worker {
        return false;
      }
      if fence.Some? && tasks[i].attempts != fence.value {
        return false;
      }
      tasks := tasks[i := tasks[i].(lease := Some(now + cfg.leaseSeconds))];
      return true;
    }

    method FinishTask(ghost cfg: Config, i: nat, worker: string, ok: bool, fence: Option<nat>) returns (verdict: Verdict)
      modifies this`tasks
      ensures verdict == if i >= |old(tasks)| then Missing else if Owns(old(Now()), i, worker, fence) then Accepted else Stale
      ensures Now() == Apply(cfg, old(Now()), Finish(i, worker, ok, fence))
    {
      if i >= |tasks| {
        return Missing;
      }
      var task := tasks[i];
      if !task.status.Held() || task.worker != worker || (fence.Some? && task.attempts != fence.value) {
        return Stale;
      }
      if ok {
        task := task.(status := Succeeded);
      } else if task.attempts >= task.maxAttempts {
        task := task.(status := DeadLetter);
      } else {
        task := task.(status := Retrying);
      }
      SaveTask(i, task.(savedLease := None));
      return Accepted;
    }

    method ReleaseTask(ghost cfg: Config, i: nat, worker: string, fence: Option<nat>) returns (verdict: Verdict)
      modifies this`tasks
      ensures verdict == Accepted <==> Owns(old(Now()), i, worker, fence)
      ensures Now() == Apply(cfg, old(Now()), Release(i, worker, fence))
    {
      if i >= |tasks| {
        return Missing;
      }
      var task := tasks[i];
      if task.worker != worker || (fence.Some? && task.attempts != fence.value) {
        return Stale;
      }
      if !task.status.Held() {
        return Missing;
      }
      SaveTask(i, task.(status := Waiting, savedLease := None));
      return Accepted;
    }

    method RequeueTask(ghost cfg: Config, i: nat)
      modifies this`tasks
      ensures Now() == Apply(cfg, old(Now()), Retry(i))
    {
      if i < |tasks| {
        SaveTask(i, tasks[i].(status := Waiting, attempts := 0, worker := "", savedLease := None));
      }
    }
  }

  datatype Flag = PauseFlag | CancelFlag

  class PersistentScheduler {
    const db: PlatformDB
    const cfg: Config
    /** Hints to running workers. */
    var control: map<nat, Flag>

    constructor (db: PlatformDB, cfg: Config)
      ensures this.db == db && this.cfg == cfg && control == map[]
    {
      this.db, this.cfg, control := db, cfg, map[];
    }

    method SetStatusOf(id: nat, status: JobStatus)
      requires id < |db.jobs|
      modifies db`jobs
      ensures db.Now() == SetStatus(old(db.Now()), id, status)
    {
      db.SaveJob(id, db.jobs[id].(status := status));
    }

    /** Whether every dependency exists and has completed. */
    method CheckDependencies(dependsOn: seq<nat>) returns (met: bool)
      ensures met <==> DependenciesMet(db.jobs, dependsOn)
    {
      var k := 0;
      while k < |dependsOn|
        invariant k <= |dependsOn|
        invariant forall l :: 0 <= l < k ==> dependsOn[l] < |db.jobs| && db.jobs[dependsOn[l]].status == Completed
      {
        if dependsOn[k] >= |db.jobs| || db.jobs[dependsOn[k]].status != Completed {
          return false;
        }
        k := k + 1;
      }
      return true;
    }

    method SubmitJob(job: NewJob) returns (id: nat)
      modifies db
      ensures id == old(|db.jobs|)
      ensures db.Now() == Apply(cfg, old(db.Now()), Submit(job))
    {
      var met := CheckDependencies(job.dependsOn);
      id := |db.jobs|;
      ghost var tasks := db.tasks;
      db.jobs := db.jobs + [Job(job.kind, if met then Queued else Blocked, job.priority, job.dependsOn, None)];
      var k := 0;
      while k < |job.tasks|
        invariant k <= |job.tasks|
        invariant db.jobs == old(db.jobs) + [Job(job.kind, if met then Queued else Blocked, job.priority, job.dependsOn, None)]
        invariant db.tasks == tasks + Enqueued(job, id, k)
      {
        var t := job.tasks[k];
        var priority := if t.priority < job.priority then t.priority else job.priority;
        db.tasks := db.tasks + [Task(id, Waiting, priority, t.profile, 0, t.maxAttempts, "", None, None)];
        k := k + 1;
      }
    }

    method PauseJob(id: nat) returns (done: bool)
      modifies this`control, db
      ensures db.Now() == Apply(cfg, old(db.Now()), Pause(id))
      ensures done <==> id < old(|db.jobs|) && !old(db.jobs)[id].status.Terminal()
      ensures control == if done then old(control)[id := PauseFlag] else old(control)
    {
      if id >= |db.jobs| || db.jobs[id].status.Terminal() {
        return false;
      }
      control := control[id := PauseFlag];
      if db.jobs[id].status in {Queued, Blocked, WaitingForUser} {
        SetStatusOf(id, Paused);
      } else {
        SetStatusOf(id, Pausing);
      }
      return true;
    }

    /** Requeues a job's retrying tasks. */
    method RequeueRetrying(id: nat)
      modifies db`tasks
      ensures db.tasks == Changed(old(db.tasks), id, Requeueing, |old(db.tasks)|)
    {
      ghost var tasks := db.tasks;
      var i := 0;
      while i < |db.tasks|
        invariant i <= |db.tasks| == |tasks|
        invariant db.tasks == Changed(tasks, id, Requeueing, i)
      {
        if db.tasks[i].job == id && db.tasks[i].status == Retrying {
          db.SaveTask(i, db.tasks[i].(status := Waiting));
        }
        i := i + 1;
      }
    }

    method ResumeJob(id: nat)
      modifies this`control, db
      ensures db.Now() == Apply(cfg, old(db.Now()), Resume(id))
      ensures id < old(|db.jobs|) ==> control == old(control) - {id}
    {
      if id >= |db.jobs| {
        return;
      }
      control := control - {id};
      if db.jobs[id].status == Paused {
        SetStatusOf(id, Resuming);
        RequeueRetrying(id);
      }
      hide Changed;
      hide Saved;
    }

    method CancelJob(id: nat) returns (done: bool)
      modifies this`control, db
      ensures db.Now() == Apply(cfg, old(db.Now()), Cancel(id))
      ensures done <==> id < old(|db.jobs|) && !old(db.jobs)[id].status.Terminal()
      ensures control == if done then old(control)[id := CancelFlag] else old(control)
    {
      if id >= |db.jobs| || db.jobs[id].status.Terminal() {
        return false;
      }
      control := control[id := CancelFlag];
      db.SaveJob(id, db.jobs[id].(status := Cancelled, reason := Some(UserStopped)));
      ghost var tasks := db.tasks;
      var i := 0;
      while i < |db.tasks|
        invariant i <= |db.tasks| == |tasks|
        invariant db.jobs == old(CancelRequested(db.Now(), id)).jobs
        invariant db.tasks == Changed(tasks, id, Dropping, i)
        invariant control == old(control)[id := CancelFlag]
      {
        if db.tasks[i].job == id && db.tasks[i].status != Succeeded && db.tasks[i].status != DeadLetter {
          db.SaveTask(i, db.tasks[i].(status := Dropped));
        }
        i := i + 1;
      }
      return true;
    }

    /** Requeues a job's overdue tasks, and tells whether any of its tasks was held. */
    method Reclaim(id: nat, now: int) returns (anyHeld: bool)
      modifies db`tasks
      ensures db.tasks == Changed(old(db.tasks), id, Reclaimed(now), |old(db.tasks)|)
      ensures anyHeld <==> HasHeld(old(db.tasks), id)
    {
      ghost var tasks := db.tasks;
      anyHeld := false;
      var i := 0;
      while i < |db.tasks|
        invariant i <= |db.tasks| == |tasks|
        invariant db.tasks == Changed(tasks, id, Reclaimed(now), i)
        invariant anyHeld <==> exists k :: 0 <= k < i && tasks[k].job == id && tasks[k].status.Held()
      {
        var task := db.tasks[i];
        if task.job == id && task.status.Held() {
          anyHeld := true;
          if Overdue(task, now) {
            db.SaveTask(i, task.(status := Waiting, worker := "", savedLease := None));
          }
        }
        i := i + 1;
      }
    }

    /** Recovery of one incomplete job. */
    method Recover(id: nat, now: int)
      requires id < |db.jobs| && !db.jobs[id].status.Terminal()
      modifies db
      ensures |db.jobs| == |old(db.jobs)|
      ensures db.Now() == Recovered(old(db.Now()), id, now)
    {
      var anyHeld := Reclaim(id, now);
      hide HasHeld;
      hide HasDead;
      hide HasLive;
      hide Overdue;
      if db.jobs[id].status.Active() && !anyHeld {
        if HasDead(db.tasks, id) && !HasLive(db.tasks, id) {
          db.SaveJob(id, db.jobs[id].(status := Failed, reason := Some(Failure)));
        } else {
          SetStatusOf(id, Queued);
        }
      }
    }

    /** Recovery at startup. */
    method ReconcileAll(now: int)
      modifies db
      ensures db.Now() == Apply(cfg, old(db.Now()), Reconcile(now))
    {
      hide Recovered;
      var n := |db.jobs|;
      var id := 0;
      while id < n
        invariant id <= n == |db.jobs| == |old(db.jobs)|
        invariant db.Now() == Reconciled(old(db.Now()), now, id)
      {
        ghost var before := db.Now();
        if !db.jobs[id].status.Terminal() {
          Recover(id, now);
        } else {
          assert Recovered(before, id, now) == before by { TerminalNotRecovered(before, id, now); }
        }
        id := id + 1;
      }
    }

    lemma TerminalNotRecovered(s: State, id: nat, now: int)
      requires id < |s.jobs| && s.jobs[id].status.Terminal()
      ensures Recovered(s, id, now) == s
    {
    }

    method PromoteBlocked()
      modifies db
      ensures db.Now() == Apply(cfg, old(db.Now()), Promote)
    {
      var ids := Listed(db.jobs, Some(Blocked));
      var k := 0;
      while k < |ids|
        invariant k <= |ids| && Rows(ids, |db.jobs|) && |db.jobs| == |old(db.jobs)|
        invariant Rows(ids[..k], |db.jobs|) && db.Now() == Promoted(old(db.Now()), ids[..k])
      {
        var id := ids[k];
        if db.jobs[id].status == Blocked {
          var met := CheckDependencies(db.jobs[id].dependsOn);
          if met {
            SetStatusOf(id, Queued);
          }
        }
        assert ids[..k + 1][..k] == ids[..k];
        k := k + 1;
      }
      assert ids[..k] == ids;
    }

    method CountActiveDeepJobs() returns (n: nat)
      ensures n == ActiveDeepJobs(db.jobs)
    {
      var ids := Listed(db.jobs, None);
      n := 0;
      var k := 0;
      while k < |ids|
        invariant k <= |ids| && Rows(ids[k..], |db.jobs|)
        invariant n + CountActive(db.jobs, ids[k..]) == ActiveDeepJobs(db.jobs)
      {
        if CountsAsActive(db.jobs[ids[k]]) {
          n := n + 1;
        }
        assert ids[k..][1..] == ids[k + 1..];
        k := k + 1;
      }
    }

    /** Starts a queued or resumed job, unless the cap or a dependency holds it back. */
    method StartJob(id: nat) returns (held: bool)
      requires id < |db.jobs| && db.jobs[id].status in {Queued, Resuming}
      modifies db`jobs
      ensures var s, job := old(db.Now()), old(db.jobs)[id];
        && (held <==> AtCap(cfg, s, job) || !DependenciesMet(s.jobs, job.dependsOn))
        && db.Now() == if AtCap(cfg, s, job) then s else SetStatus(s, id, if held then Blocked else Running)
    {
      var job := db.jobs[id];
      if job.kind.Capped() {
        var active := CountActiveDeepJobs();
        if active >= cfg.maxJobs {
          return true;
        }
      }
      var met := CheckDependencies(job.dependsOn);
      SetStatusOf(id, if met then Running else Blocked);
      return !met;
    }

    method AdvanceJob(id: nat)
      requires id < |db.jobs|
      modifies db`jobs
      ensures db.Now() == AdvancedOne(cfg, old(db.Now()), id)
    {
      var job := db.jobs[id];
      if job.status !in {Running, Pausing, Queued, Resuming, Completing} {
        return;
      }
      if !HasTask(db.tasks, id) && !job.kind.Taskless() {
        return;
      }
      if job.status == Pausing && !HasHeld(db.tasks, id) {
        SetStatusOf(id, Paused);
        return;
      }
      if job.status in {Queued, Resuming} {
        var held := StartJob(id);
        if held {
          return;
        }
      }
      if HasLive(db.tasks, id) {
        return;
      }
      job := db.jobs[id];
      if job.status in {Running, Completing} {
        var dead, done := HasDead(db.tasks, id), HasDone(db.tasks, id);
        if dead && !done {
          job := job.(status := Failed, reason := Some(Failure));
        } else if dead {
          job := job.(status := FailedPartial, reason := Some(Failure));
        } else {
          job := job.(status := Completed, reason := Or(job.reason, Convergence));
        }
        db.SaveJob(id, job);
      }
    }

    /** Moves the listed jobs forward by their tasks, or only the given one. */
    method AdvanceJobs(only: Option<nat>)
      modifies db
      ensures db.Now() == Apply(cfg, old(db.Now()), Advance(only))
    {
      hide AdvancedOne;
      var ids := Listed(db.jobs, None);
      var k := 0;
      while k < |ids|
        invariant k <= |ids| && Rows(ids, |db.jobs|) && |db.jobs| == |old(db.jobs)|
        invariant Rows(ids[..k], |db.jobs|) && db.Now() == AdvancedAll(cfg, old(db.Now()), ids[..k], only)
      {
        if only.None? || only.value == ids[k] {
          AdvanceJob(ids[k]);
        }
        assert ids[..k + 1][..k] == ids[..k];
        k := k + 1;
      }
      assert ids[..k] == ids;
    }
  }
}
