/** The meaning of the scheduler: every storage and scheduler call as one atomic step
    over the job rows and the task rows. */
module Scheduling {
  import opened Options

  datatype JobKind = DeepResearch | IncrementalUpdate | Experiment | WatcherTick | OtherKind {
    /** Kinds whose running jobs are limited in number. */
    predicate Capped() { DeepResearch? || IncrementalUpdate? }

    /** Kinds that count as active deep work. */
    predicate Deep() { Capped() || Experiment? }

    /** Kinds that may finish without ever having had a task. */
    predicate Taskless() { Capped() || WatcherTick? }
  }

  datatype JobStatus =
    | Queued | Starting | Running | Pausing | Paused | Resuming | Completing
    | Completed | Failed | FailedPartial | Cancelled
    | Blocked | WaitingForUser | WaitingForResource | WaitingForExternalResult {

    predicate Terminal() { Completed? || Failed? || FailedPartial? || Cancelled? }

    predicate Active() { Queued? || Starting? || Running? || Pausing? || Resuming? || Completing? }

    /** Tasks of such a job are not handed out. */
    predicate Withheld() { Pausing? || Paused? || Blocked? || WaitingForUser? }
  }

  datatype CompletionReason = Convergence | UserStopped | Failure

  /** A job row; jobs are numbered in the order of their creation. */
  datatype Job = Job(kind: JobKind, status: JobStatus, priority: int, dependsOn: seq<nat>, reason: Option<CompletionReason>)

  datatype TaskStatus = Waiting | Claimed | Executing | Succeeded | Retrying | DeadLetter | Dropped {
    /** Somebody holds the task. */
    predicate Held() { Claimed? || Executing? }

    predicate Live() { Held() || Waiting? || Retrying? }
  }

  /** A task row: `lease` is the lease column, `savedLease` the lease inside the row's saved record. */
  datatype Task = Task(
    job: nat,
    status: TaskStatus,
    priority: int,
    profile: nat,
    attempts: nat,
    maxAttempts: int,
    worker: string,
    lease: Option<int>,
    savedLease: Option<int>)

  datatype State = State(jobs: seq<Job>, tasks: seq<Task>)

  const EMPTY: State := State([], [])

  /** `caps[p]` limits how many tasks of resource profile p are held at a time. */
  datatype Config = Config(maxJobs: int, caps: seq<int>, leaseSeconds: int)

  const LIST_LIMIT: nat := 200

  // ------------------------------------------------------------------ job rows

  /** A terminal row accepts only another terminal status. */
  function Saved(jobs: seq<Job>, id: nat, job: Job): seq<Job>
    requires id < |jobs|
  {
    if jobs[id].status.Terminal() && !job.status.Terminal() then jobs else jobs[id := job]
  }

  function SetStatus(s: State, id: nat, status: JobStatus): State
    requires id < |s.jobs|
  {
    s.(jobs := Saved(s.jobs, id, s.jobs[id].(status := status)))
  }

  function Concluded(s: State, id: nat, status: JobStatus, reason: Option<CompletionReason>): State
    requires id < |s.jobs|
  {
    s.(jobs := Saved(s.jobs, id, s.jobs[id].(status := status, reason := reason)))
  }

  /** The numbers of rows of a table with n rows. */
  predicate Rows(ids: seq<nat>, n: nat) {
    forall k :: 0 <= k < |ids| ==> ids[k] < n
  }

  /** Places a newer row behind all rows that are at least as urgent. */
  function Placed(jobs: seq<Job>, order: seq<nat>, id: nat): seq<nat>
    requires id < |jobs| && Rows(order, |jobs|)
    ensures Rows(Placed(jobs, order, id), |jobs|)
  {
    if order == [] then [id]
    else if jobs[id].priority < jobs[order[0]].priority then [id] + order
    else [order[0]] + Placed(jobs, order[1..], id)
  }

  /** The rows that match, by priority and then by creation. */
  function Ordered(jobs: seq<Job>, wanted: Option<JobStatus>, n: nat): (order: seq<nat>)
    requires n <= |jobs|
    ensures Rows(order, |jobs|)
  {
    if n == 0 then []
    else
      var before := Ordered(jobs, wanted, n - 1);
      if wanted.Some? && jobs[n - 1].status != wanted.value then before else Placed(jobs, before, n - 1)
  }

  /** A listing shows the first 200 rows. */
  function Listed(jobs: seq<Job>, wanted: Option<JobStatus>): (ids: seq<nat>)
    ensures Rows(ids, |jobs|)
  {
    var order := Ordered(jobs, wanted, |jobs|);
    if |order| <= LIST_LIMIT then order else order[..LIST_LIMIT]
  }

  predicate CountsAsActive(job: Job) {
    job.kind.Deep() && (job.status.Running? || job.status.Starting? || job.status.Resuming? || job.status.Completing?)
  }

  function CountActive(jobs: seq<Job>, ids: seq<nat>): nat
    requires Rows(ids, |jobs|)
  {
    if ids == [] then 0 else (if CountsAsActive(jobs[ids[0]]) then 1 else 0) + CountActive(jobs, ids[1..])
  }

  function ActiveDeepJobs(jobs: seq<Job>): nat {
    CountActive(jobs, Listed(jobs, None))
  }

  predicate DependenciesMet(jobs: seq<Job>, dependsOn: seq<nat>) {
    forall k :: 0 <= k < |dependsOn| ==> dependsOn[k] < |jobs| && jobs[dependsOn[k]].status == Completed
  }

  // ------------------------------------------------------------------ the tasks of a job

  predicate HasTask(tasks: seq<Task>, job: nat) {
    exists i :: 0 <= i < |tasks| && tasks[i].job == job
  }

  predicate HasLive(tasks: seq<Task>, job: nat) {
    exists i :: 0 <= i < |tasks| && tasks[i].job == job && tasks[i].status.Live()
  }

  predicate HasHeld(tasks: seq<Task>, job: nat) {
    exists i :: 0 <= i < |tasks| && tasks[i].job == job && tasks[i].status.Held()
  }

  predicate HasDead(tasks: seq<Task>, job: nat) {
    exists i :: 0 <= i < |tasks| && tasks[i].job == job && tasks[i].status == DeadLetter
  }

  predicate HasDone(tasks: seq<Task>, job: nat) {
    exists i :: 0 <= i < |tasks| && tasks[i].job == job && tasks[i].status == Succeeded
  }

  // ------------------------------------------------------------------ job calls

  /** What a caller submits: a job and its tasks. */
  datatype NewTask = NewTask(priority: int, profile: nat, maxAttempts: int)
  datatype NewJob = NewJob(kind: JobKind, priority: int, dependsOn: seq<nat>, tasks: seq<NewTask>)

  function Enqueued(job: NewJob, id: nat, n: nat): seq<Task>
    requires n <= |job.tasks|
    ensures |Enqueued(job, id, n)| == n
    ensures forall i :: 0 <= i < n ==> Enqueued(job, id, n)[i].job == id && Enqueued(job, id, n)[i].status == Waiting
  {
    if n == 0 then []
    else
      var t := job.tasks[n - 1];
      Enqueued(job, id, n - 1)
      + [Task(id, Waiting, if t.priority < job.priority then t.priority else job.priority, t.profile, 0, t.maxAttempts, "", None, None)]
  }

  function Submitted(s: State, job: NewJob): State {
    var status := if DependenciesMet(s.jobs, job.dependsOn) then Queued else Blocked;
    State(s.jobs + [Job(job.kind, status, job.priority, job.dependsOn, None)], s.tasks + Enqueued(job, |s.jobs|, |job.tasks|))
  }

  function PauseRequested(s: State, id: nat): State {
    if id >= |s.jobs| || s.jobs[id].status.Terminal() then s
    else if s.jobs[id].status in {Queued, Blocked, WaitingForUser} then SetStatus(s, id, Paused)
    else SetStatus(s, id, Pausing)
  }

  /** The first n tasks as far as they belong to the job, changed; the others as they are. */
  function Changed(tasks: seq<Task>, job: nat, change: Task -> Task, n: nat): (r: seq<Task>)
    requires n <= |tasks|
    ensures |r| == |tasks|
    ensures forall i :: 0 <= i < |tasks| ==> r[i] == if i < n && tasks[i].job == job then change(tasks[i]) else tasks[i]
  {
    if n == 0 then tasks
    else
      var before := Changed(tasks, job, change, n - 1);
      if tasks[n - 1].job == job then before[n - 1 := change(tasks[n - 1])] else before
  }

  function Requeueing(task: Task): Task {
    if task.status == Retrying then task.(status := Waiting, lease := task.savedLease) else task
  }

  function ResumeRequested(s: State, id: nat): State {
    if id >= |s.jobs| || s.jobs[id].status != Paused then s
    else SetStatus(s, id, Resuming).(tasks := Changed(s.tasks, id, Requeueing, |s.tasks|))
  }

  function Dropping(task: Task): Task {
    if task.status == Succeeded || task.status == DeadLetter then task
    else task.(status := Dropped, lease := task.savedLease)
  }

  function CancelRequested(s: State, id: nat): State {
    if id >= |s.jobs| || s.jobs[id].status.Terminal() then s
    else Concluded(s, id, Cancelled, Some(UserStopped)).(tasks := Changed(s.tasks, id, Dropping, |s.tasks|))
  }

  predicate Overdue(task: Task, now: int) {
    task.status.Held() && task.savedLease.Some? && task.savedLease.value <= now
  }

  function Reclaimed(now: int): Task -> Task {
    (task: Task) => if Overdue(task, now) then task.(status := Waiting, worker := "", lease := None, savedLease := None) else task
  }

  /** Recovery of one incomplete job: overdue tasks are requeued, and an active job none of whose
      tasks was held is requeued too, or fails when only dead letters are left. */
  function Recovered(s: State, id: nat, now: int): State
    requires id < |s.jobs|
  {
    var tasks := Changed(s.tasks, id, Reclaimed(now), |s.tasks|);
    var s1 := s.(tasks := tasks);
    var status := s.jobs[id].status;
    if status.Terminal() then s
    else if status.Active() && !HasHeld(s.tasks, id) then
      if HasDead(tasks, id) && !HasLive(tasks, id) then Concluded(s1, id, Failed, Some(Failure))
      else SetStatus(s1, id, Queued)
    else s1
  }

  function Reconciled(s: State, now: int, n: nat): (r: State)
    requires n <= |s.jobs|
    ensures |r.jobs| == |s.jobs|
  {
    if n == 0 then s else Recovered(Reconciled(s, now, n - 1), n - 1, now)
  }

  function Unblocked(s: State, id: nat): State
    requires id < |s.jobs|
  {
    if s.jobs[id].status == Blocked && DependenciesMet(s.jobs, s.jobs[id].dependsOn) then SetStatus(s, id, Queued) else s
  }

  function Promoted(s: State, ids: seq<nat>): (r: State)
    requires Rows(ids, |s.jobs|)
    ensures |r.jobs| == |s.jobs|
  {
    if ids == [] then s else Unblocked(Promoted(s, ids[..|ids| - 1]), ids[|ids| - 1])
  }

  /** Nothing is queued any more: the job ends as its tasks did. */
  function Finalised(s: State, id: nat): State
    requires id < |s.jobs|
  {
    if HasDead(s.tasks, id) then
      Concluded(s, id, if HasDone(s.tasks, id) then FailedPartial else Failed, Some(Failure))
    else
      Concluded(s, id, Completed, Or(s.jobs[id].reason, Convergence))
  }

  predicate AtCap(cfg: Config, s: State, job: Job) {
    job.kind.Capped() && ActiveDeepJobs(s.jobs) >= cfg.maxJobs
  }

  /** Moves one job forward by its tasks. */
  function AdvancedOne(cfg: Config, s: State, id: nat): (r: State)
    requires id < |s.jobs|
    ensures |r.jobs| == |s.jobs| && r.tasks == s.tasks
  {
    var job := s.jobs[id];
    if job.status !in {Running, Pausing, Queued, Resuming, Completing} then s
    else if !HasTask(s.tasks, id) && !job.kind.Taskless() then s
    else if job.status == Pausing && !HasHeld(s.tasks, id) then SetStatus(s, id, Paused)
    else if job.status in {Queued, Resuming} && AtCap(cfg, s, job) then s
    else if job.status in {Queued, Resuming} && !DependenciesMet(s.jobs, job.dependsOn) then SetStatus(s, id, Blocked)
    else
      var s1 := if job.status in {Queued, Resuming} then SetStatus(s, id, Running) else s;
      if !HasLive(s.tasks, id) && s1.jobs[id].status in {Running, Completing} then Finalised(s1, id) else s1
  }

  /** Moves the listed jobs forward, or only one of them. */
  function AdvancedAll(cfg: Config, s: State, ids: seq<nat>, only: Option<nat>): (r: State)
    requires Rows(ids, |s.jobs|)
    ensures |r.jobs| == |s.jobs| && r.tasks == s.tasks
  {
    if ids == [] then s
    else
      var before := AdvancedAll(cfg, s, ids[..|ids| - 1], only);
      var id := ids[|ids| - 1];
      if only.Some? && only.value != id then before else AdvancedOne(cfg, before, id)
  }

  // ------------------------------------------------------------------ task calls

  function Busy(tasks: seq<Task>, profile: nat, now: int): nat {
    if tasks == [] then 0
    else
      var task := tasks[|tasks| - 1];
      Busy(tasks[..|tasks| - 1], profile, now)
      + (if task.profile == profile && task.status.Held() && task.lease.Some? && now < task.lease.value then 1 else 0)
  }

  /** A task that may be handed out: waiting, or held under an expired lease. */
  predicate Free(task: Task, now: int) {
    task.status == Waiting || task.status == Retrying
    || (task.status.Held() && task.lease.Some? && task.lease.value <= now)
  }

  predicate Claimable(s: State, i: nat, profile: nat, now: int)
    requires i < |s.tasks|
  {
    && s.tasks[i].profile == profile
    && !(s.tasks[i].job < |s.jobs| && s.jobs[s.tasks[i].job].status.Withheld())
    && Free(s.tasks[i], now)
  }

  /** The most urgent claimable task among the first n, the oldest of equals. */
  function Choice(s: State, profile: nat, now: int, n: nat): (i: Option<nat>)
    requires n <= |s.tasks|
    ensures i.Some? ==> i.value < n && Claimable(s, i.value, profile, now)
    ensures i.Some? ==> forall k :: 0 <= k < n && Claimable(s, k, profile, now) ==>
      s.tasks[i.value].priority < s.tasks[k].priority || (s.tasks[i.value].priority == s.tasks[k].priority && i.value <= k)
    ensures i.None? ==> forall k :: 0 <= k < n ==> !Claimable(s, k, profile, now)
  {
    if n == 0 then None
    else
      var best := Choice(s, profile, now, n - 1);
      if Claimable(s, n - 1, profile, now) && (best.None? || s.tasks[n - 1].priority < s.tasks[best.value].priority) then Some(n - 1)
      else best
  }

  /** The task a claim hands out: the choice of the first profile below its cap that has one. */
  function Pick(cfg: Config, s: State, now: int, profile: nat): (i: Option<nat>)
    requires profile <= |cfg.caps|
    ensures i.Some? ==> i.value < |s.tasks|
    decreases |cfg.caps| - profile
  {
    if profile == |cfg.caps| then None
    else if cfg.caps[profile] <= Busy(s.tasks, profile, now) then Pick(cfg, s, now, profile + 1)
    else
      var choice := Choice(s, profile, now, |s.tasks|);
      if choice.Some? then choice else Pick(cfg, s, now, profile + 1)
  }

  function Taken(cfg: Config, task: Task, worker: string, now: int): Task {
    task.(status := Executing, worker := worker, attempts := task.attempts + 1,
          lease := Some(now + cfg.leaseSeconds), savedLease := Some(now + cfg.leaseSeconds))
  }

  function ClaimedBy(cfg: Config, s: State, worker: string, now: int): State {
    var i := Pick(cfg, s, now, 0);
    if i.None? then s
    else s.(tasks := s.tasks[i.value := Taken(cfg, s.tasks[i.value], worker, now)])
  }

  /** A write is accepted from the worker that holds the task, if its fence is the current one. */
  predicate Owns(s: State, i: nat, worker: string, fence: Option<nat>) {
    && i < |s.tasks| && s.tasks[i].status.Held() && s.tasks[i].worker == worker
    && (fence.None? || s.tasks[i].attempts == fence.value)
  }

  /** Renewing a lease touches the lease column only. */
  function Renewed(cfg: Config, s: State, i: nat, worker: string, fence: Option<nat>, now: int): State {
    if Owns(s, i, worker, fence) then s.(tasks := s.tasks[i := s.tasks[i].(lease := Some(now + cfg.leaseSeconds))]) else s
  }

  function Finished(s: State, i: nat, worker: string, ok: bool, fence: Option<nat>): State {
    if Owns(s, i, worker, fence) then
      var task := s.tasks[i];
      var status := if ok then Succeeded else if task.maxAttempts <= task.attempts then DeadLetter else Retrying;
      s.(tasks := s.tasks[i := task.(status := status, lease := None, savedLease := None)])
    else s
  }

  function Released(s: State, i: nat, worker: string, fence: Option<nat>): State {
    if Owns(s, i, worker, fence) then
      s.(tasks := s.tasks[i := s.tasks[i].(status := Waiting, lease := None, savedLease := None)])
    else s
  }

  /** The manual retry starts the attempts, and so the fences, over again. */
  function Retried(s: State, i: nat): State {
    if i >= |s.tasks| then s
    else s.(tasks := s.tasks[i := s.tasks[i].(status := Waiting, attempts := 0, worker := "", lease := None, savedLease := None)])
  }

  // ------------------------------------------------------------------ runs

  datatype Step =
    | Submit(job: NewJob)
    | Pause(id: nat)
    | Resume(id: nat)
    | Cancel(id: nat)
    | Reconcile(now: int)
    | Promote
    | Advance(only: Option<nat>)
    | Claim(worker: string, now: int)
    | Heartbeat(i: nat, worker: string, fence: Option<nat>, now: int)
    | Finish(i: nat, worker: string, ok: bool, fence: Option<nat>)
    | Release(i: nat, worker: string, fence: Option<nat>)
    | Retry(i: nat)

  function Apply(cfg: Config, s: State, step: Step): State {
    match step
    case Submit(job) => Submitted(s, job)
    case Pause(id) => PauseRequested(s, id)
    case Resume(id) => ResumeRequested(s, id)
    case Cancel(id) => CancelRequested(s, id)
    case Reconcile(now) => Reconciled(s, now, |s.jobs|)
    case Promote => Promoted(s, Listed(s.jobs, Some(Blocked)))
    case Advance(only) => AdvancedAll(cfg, s, Listed(s.jobs, None), only)
    case Claim(worker, now) => ClaimedBy(cfg, s, worker, now)
    case Heartbeat(i, worker, fence, now) => Renewed(cfg, s, i, worker, fence, now)
    case Finish(i, worker, ok, fence) => Finished(s, i, worker, ok, fence)
    case Release(i, worker, fence) => Released(s, i, worker, fence)
    case Retry(i) => Retried(s, i)
  }

  /** Any interleaving of calls, by any number of workers, is a sequence of steps. */
  function Run(cfg: Config, s: State, steps: seq<Step>): State {
    if steps == [] then s else Apply(cfg, Run(cfg, s, steps[..|steps| - 1]), steps[|steps| - 1])
  }
}
