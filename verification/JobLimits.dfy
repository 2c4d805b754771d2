/** How many capped jobs can be running at a time, and what the cap does to resumed jobs. */
module JobLimits {
  import opened Options
  import opened Scheduling
  import JobSafety
  import TaskFencing

  predicate RunsCapped(job: Job) {
    job.kind.Capped() && job.status == Running
  }

  /** Running capped jobs among the first n rows. */
  function CountRunning(jobs: seq<Job>, n: nat): nat
    requires n <= |jobs|
  {
    if n == 0 then 0 else CountRunning(jobs, n - 1) + (if RunsCapped(jobs[n - 1]) then 1 else 0)
  }

  predicate WithinCap(cfg: Config, s: State) {
    var running := CountRunning(s.jobs, |s.jobs|);
    running == 0 || running <= cfg.maxJobs
  }

  // ------------------------------------------------------------------ a full listing counts every row

  lemma {:induction false} PlacedCounts(jobs: seq<Job>, order: seq<nat>, id: nat)
    requires id < |jobs| && Rows(order, |jobs|)
    ensures |Placed(jobs, order, id)| == |order| + 1
    ensures CountActive(jobs, Placed(jobs, order, id)) == CountActive(jobs, order) + (if CountsAsActive(jobs[id]) then 1 else 0)
  {
    if order == [] || jobs[id].priority < jobs[order[0]].priority {
      assert ([id] + order)[1..] == order;
    } else {
      PlacedCounts(jobs, order[1..], id);
      assert ([order[0]] + Placed(jobs, order[1..], id))[1..] == Placed(jobs, order[1..], id);
    }
  }

  lemma {:induction false} OrderedCounts(jobs: seq<Job>, n: nat)
    requires n <= |jobs|
    ensures |Ordered(jobs, None, n)| == n
    ensures CountRunning(jobs, n) <= CountActive(jobs, Ordered(jobs, None, n))
  {
    if n > 0 {
      OrderedCounts(jobs, n - 1);
      PlacedCounts(jobs, Ordered(jobs, None, n - 1), n - 1);
    }
  }

  lemma ShortTableIsCounted(jobs: seq<Job>)
    requires |jobs| <= LIST_LIMIT
    ensures CountRunning(jobs, |jobs|) <= ActiveDeepJobs(jobs)
  {
    OrderedCounts(jobs, |jobs|);
  }

  // ------------------------------------------------------------------ only moving forward starts jobs

  /** No capped job starts to run. */
  predicate NoneStarts(jobs: seq<Job>, jobs1: seq<Job>) {
    && |jobs| <= |jobs1|
    && forall j :: 0 <= j < |jobs1| && RunsCapped(jobs1[j]) ==> j < |jobs| && RunsCapped(jobs[j])
  }

  lemma {:induction false} NoneStartsCounts(jobs: seq<Job>, jobs1: seq<Job>, n: nat, n1: nat)
    requires NoneStarts(jobs, jobs1) && n <= |jobs| && n1 <= |jobs1|
    requires n == if n1 <= |jobs| then n1 else |jobs|
    ensures CountRunning(jobs1, n1) <= CountRunning(jobs, n)
  {
    if n1 > 0 {
      NoneStartsCounts(jobs, jobs1, if n1 <= |jobs| then n - 1 else n, n1 - 1);
    }
  }

  lemma {:induction false} OneStartsCounts(jobs: seq<Job>, id: nat, job: Job, n: nat)
    requires id < |jobs| && n <= |jobs|
    ensures CountRunning(jobs[id := job], n) <= CountRunning(jobs, n) + (if id < n then 1 else 0)
  {
    if n > 0 {
      OneStartsCounts(jobs, id, job, n - 1);
      if id == n - 1 {
        SameCounts(jobs, jobs[id := job], n - 1);
      }
    }
  }

  lemma {:induction false} SameCounts(jobs: seq<Job>, jobs1: seq<Job>, n: nat)
    requires n <= |jobs| && |jobs1| == |jobs| && forall j :: 0 <= j < n ==> jobs1[j] == jobs[j]
    ensures CountRunning(jobs1, n) == CountRunning(jobs, n)
  {
    if n > 0 {
      SameCounts(jobs, jobs1, n - 1);
    }
  }

  lemma {:induction false} ReconcileStartsNone(s: State, now: int, n: nat)
    requires n <= |s.jobs|
    ensures NoneStarts(s.jobs, Reconciled(s, now, n).jobs)
  {
    hide HasLive;
    hide HasHeld;
    hide HasDead;
    if n > 0 {
      ReconcileStartsNone(s, now, n - 1);
    }
  }

  lemma {:induction false} PromoteStartsNone(s: State, ids: seq<nat>)
    requires Rows(ids, |s.jobs|)
    ensures NoneStarts(s.jobs, Promoted(s, ids).jobs)
  {
    hide DependenciesMet;
    if ids != [] {
      PromoteStartsNone(s, ids[..|ids| - 1]);
    }
  }

  lemma QuietStep(cfg: Config, s: State, step: Step)
    requires !step.Advance?
    ensures NoneStarts(s.jobs, Apply(cfg, s, step).jobs)
  {
    match step
    case Reconcile(now) => ReconcileStartsNone(s, now, |s.jobs|);
    case Promote => PromoteStartsNone(s, Listed(s.jobs, Some(Blocked)));
    case _ =>
  }

  /** A job is started only below the cap. */
  lemma AdvanceOneWithinCap(cfg: Config, s: State, id: nat)
    requires id < |s.jobs| <= LIST_LIMIT && WithinCap(cfg, s)
    ensures WithinCap(cfg, AdvancedOne(cfg, s, id))
  {
    var s1 := AdvancedOne(cfg, s, id);
    ShortTableIsCounted(s.jobs);
    var job := s1.jobs[id];
    assert s1.jobs == s.jobs[id := job] && (RunsCapped(job) && !RunsCapped(s.jobs[id]) ==> !AtCap(cfg, s, s.jobs[id])) by {
      hide HasLive;
      hide HasHeld;
      hide HasTask;
      hide HasDead;
      hide HasDone;
      hide DependenciesMet;
      hide AtCap;
    }
    if RunsCapped(job) && !RunsCapped(s.jobs[id]) {
      OneStartsCounts(s.jobs, id, job, |s.jobs|);
      assert s.jobs[id].kind.Capped();
    } else {
      hide AdvancedOne;
      assert NoneStarts(s.jobs, s1.jobs);
      NoneStartsCounts(s.jobs, s1.jobs, |s.jobs|, |s.jobs|);
    }
  }

  lemma {:induction false} AdvanceWithinCap(cfg: Config, s: State, ids: seq<nat>, only: Option<nat>)
    requires Rows(ids, |s.jobs|) && |s.jobs| <= LIST_LIMIT && WithinCap(cfg, s)
    ensures WithinCap(cfg, AdvancedAll(cfg, s, ids, only))
  {
    hide WithinCap;
    hide AdvancedOne;
    if ids != [] {
      var n := |ids| - 1;
      AdvanceWithinCap(cfg, s, ids[..n], only);
      AdvanceOneWithinCap(cfg, AdvancedAll(cfg, s, ids[..n], only), ids[n]);
    }
  }

  lemma StepWithinCap(cfg: Config, s: State, step: Step)
    requires |s.jobs| <= LIST_LIMIT && WithinCap(cfg, s)
    ensures WithinCap(cfg, Apply(cfg, s, step))
  {
    if step.Advance? {
      AdvanceWithinCap(cfg, s, Listed(s.jobs, None), step.only);
    } else {
      QuietStep(cfg, s, step);
      var s1 := Apply(cfg, s, step);
      NoneStartsCounts(s.jobs, s1.jobs, |s.jobs|, |s1.jobs|);
    }
    hide Apply;
  }

  /** As long as there are at most 200 job rows, never more capped jobs run than allowed,
      over any interleaving of calls. */
  lemma {:induction false} CapHolds(cfg: Config, steps: seq<Step>)
    requires |Run(cfg, EMPTY, steps).jobs| <= LIST_LIMIT
    ensures WithinCap(cfg, Run(cfg, EMPTY, steps))
  {
    hide Apply;
    if steps != [] {
      var n := |steps| - 1;
      var s := Run(cfg, EMPTY, steps[..n]);
      JobSafety.JobsStayFit(cfg, EMPTY, steps[..n]);
      JobSafety.StepKeepsJobs(cfg, s, steps[n]);
      CapHolds(cfg, steps[..n]);
      StepWithinCap(cfg, s, steps[n]);
    }
  }

  // ------------------------------------------------------------------ row 201

  const SLOW: NewJob := NewJob(DeepResearch, 50, [], [NewTask(50, 0, 3)])
  const URGENT: NewJob := NewJob(DeepResearch, 10, [], [NewTask(50, 0, 3)])
  const CHORE: NewJob := NewJob(OtherKind, 10, [], [])

  const SLOW_TASK: Task := Task(0, Waiting, 50, 0, 0, 3, "", None, None)
  const URGENT_TASK: Task := Task(1, Waiting, 10, 0, 0, 3, "", None, None)

  function Chores(k: nat): (jobs: seq<Job>)
    ensures |jobs| == k
    ensures forall j :: 0 <= j < k ==> jobs[j] == Job(OtherKind, Queued, 10, [], None)
  {
    if k == 0 then [] else Chores(k - 1) + [Job(OtherKind, Queued, 10, [], None)]
  }

  /** A slow job that runs, an urgent one that waits behind it, and many chores. */
  function Crowd(k: nat): State {
    State([Job(DeepResearch, Running, 50, [], None), Job(DeepResearch, Queued, 10, [], None)] + Chores(k), [SLOW_TASK, URGENT_TASK])
  }

  function Repeated(k: nat): (steps: seq<Step>) {
    if k == 0 then [] else Repeated(k - 1) + [Submit(CHORE)]
  }

  const OPENING: seq<Step> := [Submit(SLOW)] + [Advance(None)] + [Submit(URGENT)]

  lemma OneTask(job: NewJob, id: nat)
    requires |job.tasks| == 1
    ensures var t := job.tasks[0];
      Enqueued(job, id, 1) == [Task(id, Waiting, if t.priority < job.priority then t.priority else job.priority, t.profile, 0, t.maxAttempts, "", None, None)]
  {
    assert Enqueued(job, id, 0) == [];
  }

  /** A queued job below the cap with a live task and nothing to depend on starts to run. */
  lemma Starts(cfg: Config, s: State, id: nat, i: nat)
    requires id < |s.jobs| && s.jobs[id].status == Queued && s.jobs[id].dependsOn == []
    requires ActiveDeepJobs(s.jobs) < cfg.maxJobs
    requires i < |s.tasks| && s.tasks[i].job == id && s.tasks[i].status == Waiting
    ensures AdvancedOne(cfg, s, id) == s.(jobs := s.jobs[id := s.jobs[id].(status := Running)])
  {
    assert HasTask(s.tasks, id) && HasLive(s.tasks, id);
    hide ActiveDeepJobs;
    hide HasTask;
    hide HasLive;
    hide HasHeld;
    hide HasDead;
    hide HasDone;
  }

  lemma SlowStarts(cfg: Config)
    requires cfg.maxJobs == 1
    ensures Run(cfg, EMPTY, [Submit(SLOW)] + [Advance(None)]) == State([Job(DeepResearch, Running, 50, [], None)], [SLOW_TASK])
  {
    OneTask(SLOW, 0);
    var s := State([Job(DeepResearch, Queued, 50, [], None)], [SLOW_TASK]);
    assert Submitted(EMPTY, SLOW) == s;
    TaskFencing.RunOn(cfg, EMPTY, [], Submit(SLOW));
    TaskFencing.RunOn(cfg, EMPTY, [Submit(SLOW)], Advance(None));
    assert Ordered(s.jobs, None, 0) == [];
    assert Ordered(s.jobs, None, 1) == [0];
    assert Listed(s.jobs, None) == [0];
    assert CountActive(s.jobs, [0]) == 0;
    assert AdvancedAll(cfg, s, [], None) == s;
    assert s.tasks[0] == SLOW_TASK;
    Starts(cfg, s, 0, 0);
    hide AdvancedOne;
    assert AdvancedAll(cfg, s, [0], None) == AdvancedOne(cfg, s, 0);
  }

  lemma Opening(cfg: Config)
    requires cfg.maxJobs == 1
    ensures Run(cfg, EMPTY, OPENING) == Crowd(0)
  {
    SlowStarts(cfg);
    OneTask(URGENT, 1);
    var s := State([Job(DeepResearch, Running, 50, [], None)], [SLOW_TASK]);
    assert Submitted(s, URGENT) == Crowd(0);
    TaskFencing.RunOn(cfg, EMPTY, [Submit(SLOW)] + [Advance(None)], Submit(URGENT));
  }

  lemma ChoreJoins(k: nat)
    requires k > 0
    ensures Submitted(Crowd(k - 1), CHORE) == Crowd(k)
  {
    assert Enqueued(CHORE, k + 1, 0) == [];
  }

  lemma {:induction false} CrowdGathers(cfg: Config, k: nat)
    requires cfg.maxJobs == 1
    ensures Run(cfg, EMPTY, OPENING + Repeated(k)) == Crowd(k)
  {
    if k == 0 {
      Opening(cfg);
      assert OPENING + Repeated(0) == OPENING;
    } else {
      CrowdGathers(cfg, k - 1);
      TaskFencing.RunOn(cfg, EMPTY, OPENING + Repeated(k - 1), Submit(CHORE));
      assert OPENING + Repeated(k) == OPENING + Repeated(k - 1) + [Submit(CHORE)];
      ChoreJoins(k);
      hide Run;
      hide Crowd;
      hide Submitted;
    }
  }

  /** The numbers 1 to n. */
  function UpTo(n: nat): (ids: seq<nat>)
    ensures |ids| == n && forall k :: 0 <= k < n ==> ids[k] == k + 1
  {
    if n == 0 then [] else UpTo(n - 1) + [n]
  }

  lemma {:induction false} PlacedBeforeLast(jobs: seq<Job>, front: seq<nat>, last: nat, id: nat)
    requires id < |jobs| && last < |jobs| && Rows(front, |jobs|)
    requires forall k :: 0 <= k < |front| ==> jobs[front[k]].priority <= jobs[id].priority
    requires jobs[id].priority < jobs[last].priority
    ensures Placed(jobs, front + [last], id) == front + [id] + [last]
  {
    if front == [] {
      assert front + [last] == [last];
    } else {
      PlacedBeforeLast(jobs, front[1..], last, id);
      assert (front + [last])[1..] == front[1..] + [last];
      assert front + [id] + [last] == [front[0]] + (front[1..] + [id] + [last]);
    }
  }

  /** The slow job comes last. */
  lemma {:induction false} CrowdOrdered(k: nat, n: nat)
    requires 1 <= n <= k + 2
    ensures Ordered(Crowd(k).jobs, None, n) == UpTo(n - 1) + [0]
  {
    var jobs := Crowd(k).jobs;
    if n == 1 {
      assert Ordered(jobs, None, 0) == [];
    } else {
      CrowdOrdered(k, n - 1);
      PlacedBeforeLast(jobs, UpTo(n - 2), 0, n - 1);
    }
  }

  lemma {:induction false} NobodyActive(jobs: seq<Job>, ids: seq<nat>)
    requires Rows(ids, |jobs|) && forall k :: 0 <= k < |ids| ==> !CountsAsActive(jobs[ids[k]])
    ensures CountActive(jobs, ids) == 0
  {
    if ids != [] {
      NobodyActive(jobs, ids[1..]);
    }
  }

  /** The crowd with the urgent job running as well. */
  function Crowded(k: nat): State {
    Crowd(k).(jobs := Crowd(k).jobs[1 := Job(DeepResearch, Running, 10, [], None)])
  }

  lemma CrowdListed()
    ensures Listed(Crowd(199).jobs, None) == UpTo(200)
  {
    CrowdOrdered(199, 201);
    hide Ordered;
    assert (UpTo(200) + [0])[..200] == UpTo(200);
  }

  lemma UrgentStarts(cfg: Config)
    requires cfg.maxJobs == 1
    ensures AdvancedOne(cfg, Crowd(199), 1) == Crowded(199)
  {
    var s := Crowd(199);
    CrowdListed();
    NobodyActive(s.jobs, UpTo(200));
    assert s.tasks[1] == URGENT_TASK;
    assert ActiveDeepJobs(s.jobs) == 0 by {
      hide Listed;
      hide CountActive;
    }
    hide ActiveDeepJobs;
    Starts(cfg, s, 1, 1);
    hide AdvancedOne;
  }

  lemma ChoreWaits(cfg: Config, n: nat)
    requires 2 <= n <= 200
    ensures AdvancedOne(cfg, Crowded(199), n) == Crowded(199)
  {
    assert !HasTask(Crowded(199).tasks, n);
    assert Crowded(199).jobs[n].kind == OtherKind;
    hide AtCap;
    hide HasTask;
    hide DependenciesMet;
  }

  lemma {:induction false} CrowdAdvances(cfg: Config, n: nat)
    requires cfg.maxJobs == 1 && 1 <= n <= 200
    ensures AdvancedAll(cfg, Crowd(199), UpTo(n), None) == Crowded(199)
  {
    var s := Crowd(199);
    assert UpTo(n)[..n - 1] == UpTo(n - 1);
    if n == 1 {
      assert AdvancedAll(cfg, s, UpTo(0), None) == s;
      UrgentStarts(cfg);
    } else {
      CrowdAdvances(cfg, n - 1);
      ChoreWaits(cfg, n);
      hide AdvancedOne;
    }
  }

  lemma {:induction false} BothCount(n: nat)
    requires 2 <= n <= 201
    ensures CountRunning(Crowded(199).jobs, n) >= 2
  {
    var jobs := Crowded(199).jobs;
    if n == 2 {
      assert CountRunning(jobs, 0) == 0;
      assert CountRunning(jobs, 1) == 1;
    } else {
      BothCount(n - 1);
    }
  }

  const OVERFLOWING: seq<Step> := OPENING + Repeated(199) + [Advance(None)]

  lemma CrowdOverflows(cfg: Config)
    requires cfg.maxJobs == 1
    ensures Apply(cfg, Crowd(199), Advance(None)) == Crowded(199)
  {
    CrowdListed();
    CrowdAdvances(cfg, 200);
    hide Listed;
    hide AdvancedAll;
    hide Crowd;
  }

  lemma OverflowReached(cfg: Config)
    requires cfg.maxJobs == 1
    ensures Run(cfg, EMPTY, OVERFLOWING) == Crowded(199)
  {
    hide Run;
    hide Apply;
    hide Crowd;
    hide Crowded;
    CrowdGathers(cfg, 199);
    TaskFencing.RunOn(cfg, EMPTY, OPENING + Repeated(199), Advance(None));
    CrowdOverflows(cfg);
  }

  /** With 201 rows the running job may be hidden behind the listing, and a second one starts. */
  lemma CapFailsBeyondTheListing(cfg: Config)
    requires cfg.maxJobs == 1
    ensures var s := Run(cfg, EMPTY, OVERFLOWING); |s.jobs| == 201 && !WithinCap(cfg, s)
  {
    OverflowReached(cfg);
    CrowdSize();
    BothCount(201);
    hide Run;
    hide CountRunning;
    hide Crowded;
  }

  lemma CrowdSize()
    ensures |Crowded(199).jobs| == 201
  {
  }

  /** The cap holds over all runs exactly as long as a listing shows every row. */
  lemma CapExactlyWhen(rows: nat)
    ensures (forall cfg: Config, steps | |Run(cfg, EMPTY, steps).jobs| <= rows :: WithinCap(cfg, Run(cfg, EMPTY, steps)))
      <==> rows <= LIST_LIMIT
  {
    if rows <= LIST_LIMIT {
      forall cfg: Config, steps | |Run(cfg, EMPTY, steps).jobs| <= rows ensures WithinCap(cfg, Run(cfg, EMPTY, steps)) {
        CapHolds(cfg, steps);
      }
    } else {
      CapFailsBeyondTheListing(Config(1, [], 120));
    }
  }

  // ------------------------------------------------------------------ resumed jobs

  /** Calls that are not about taking a job out of the resuming status. */
  predicate Ordinary(step: Step, id: nat) {
    !step.Reconcile? && step != Cancel(id) && step != Pause(id)
  }

  lemma {:induction false} CountsItself(jobs: seq<Job>, ids: seq<nat>, k: nat)
    requires Rows(ids, |jobs|) && k < |ids| && CountsAsActive(jobs[ids[k]])
    ensures 1 <= CountActive(jobs, ids)
  {
    if k > 0 {
      CountsItself(jobs, ids[1..], k - 1);
    }
  }

  predicate SamePriorities(jobs: seq<Job>, jobs1: seq<Job>) {
    |jobs| == |jobs1| && forall j :: 0 <= j < |jobs| ==> jobs1[j].priority == jobs[j].priority
  }

  lemma {:induction false} PlacedSame(jobs: seq<Job>, jobs1: seq<Job>, order: seq<nat>, id: nat)
    requires SamePriorities(jobs, jobs1) && id < |jobs| && Rows(order, |jobs|)
    ensures Placed(jobs1, order, id) == Placed(jobs, order, id)
  {
    if order != [] {
      PlacedSame(jobs, jobs1, order[1..], id);
    }
  }

  lemma {:induction false} OrderedSame(jobs: seq<Job>, jobs1: seq<Job>, n: nat)
    requires SamePriorities(jobs, jobs1) && n <= |jobs|
    ensures Ordered(jobs1, None, n) == Ordered(jobs, None, n)
  {
    if n > 0 {
      OrderedSame(jobs, jobs1, n - 1);
      PlacedSame(jobs, jobs1, Ordered(jobs, None, n - 1), n - 1);
    }
  }

  lemma ResumingIsAtCap(cfg: Config, s: State, jobs0: seq<Job>, k: nat)
    requires cfg.maxJobs <= 1 && SamePriorities(jobs0, s.jobs) && k < |Listed(jobs0, None)|
    requires var id := Listed(jobs0, None)[k]; s.jobs[id].kind.Capped() && s.jobs[id].status == Resuming
    ensures AdvancedOne(cfg, s, Listed(jobs0, None)[k]) == s
  {
    OrderedSame(jobs0, s.jobs, |jobs0|);
    CountsItself(s.jobs, Listed(s.jobs, None), k);
    hide Ordered;
    hide CountActive;
    hide HasTask;
    hide HasHeld;
  }

  lemma {:induction false} AdvanceLeavesResuming(cfg: Config, s: State, n: nat, only: Option<nat>, id: nat)
    requires cfg.maxJobs <= 1 && JobSafety.JobsFit(s.jobs) && n <= |Listed(s.jobs, None)|
    requires id < |s.jobs| && s.jobs[id].kind.Capped() && s.jobs[id].status == Resuming
    ensures AdvancedAll(cfg, s, Listed(s.jobs, None)[..n], only).jobs[id] == s.jobs[id]
  {
    var ids := Listed(s.jobs, None);
    hide Listed;
    if n > 0 {
      AdvanceLeavesResuming(cfg, s, n - 1, only, id);
      assert ids[..n][..n - 1] == ids[..n - 1];
      var s1 := AdvancedAll(cfg, s, ids[..n - 1], only);
      JobSafety.AdvanceKeeps(cfg, s, ids[..n - 1], only);
      if ids[n - 1] == id {
        ResumingIsAtCap(cfg, s1, s.jobs, n - 1);
      } else {
        OthersUntouched(cfg, s1, ids[n - 1], id);
      }
      hide AdvancedOne;
    }
  }

  lemma OthersUntouched(cfg: Config, s: State, id: nat, j: nat)
    requires id < |s.jobs| && j < |s.jobs| && j != id
    ensures AdvancedOne(cfg, s, id).jobs[j] == s.jobs[j]
  {
    hide AtCap;
    hide HasTask;
    hide HasLive;
    hide HasHeld;
    hide HasDead;
    hide HasDone;
    hide DependenciesMet;
  }

  lemma {:induction false} PromoteTouchesBlocked(s: State, ids: seq<nat>, j: nat)
    requires Rows(ids, |s.jobs|) && j < |s.jobs| && s.jobs[j].status != Blocked
    ensures Promoted(s, ids).jobs[j] == s.jobs[j]
  {
    hide DependenciesMet;
    if ids != [] {
      PromoteTouchesBlocked(s, ids[..|ids| - 1], j);
    }
  }

  lemma StepLeavesResuming(cfg: Config, s: State, step: Step, id: nat)
    requires cfg.maxJobs <= 1 && JobSafety.JobsFit(s.jobs) && Ordinary(step, id)
    requires id < |s.jobs| && s.jobs[id].kind.Capped() && s.jobs[id].status == Resuming
    ensures var s1 := Apply(cfg, s, step); id < |s1.jobs| && s1.jobs[id] == s.jobs[id]
  {
    match step
    case Advance(only) =>
      var ids := Listed(s.jobs, None);
      assert ids[..|ids|] == ids;
      AdvanceLeavesResuming(cfg, s, |ids|, only, id);
    case Promote => PromoteTouchesBlocked(s, Listed(s.jobs, Some(Blocked)), id);
    case _ =>
  }

  /** With room for a single capped job, a paused one that is resumed counts itself and never runs
      again, until it is paused once more or cancelled or the scheduler restarts. */
  lemma {:induction false} ResumedNeverRuns(cfg: Config, s: State, steps: seq<Step>, id: nat)
    requires cfg.maxJobs <= 1 && JobSafety.JobsFit(s.jobs)
    requires forall k :: 0 <= k < |steps| ==> Ordinary(steps[k], id)
    requires id < |s.jobs| && s.jobs[id].kind.Capped() && s.jobs[id].status == Resuming
    ensures var s1 := Run(cfg, s, steps); id < |s1.jobs| && s1.jobs[id] == s.jobs[id]
  {
    hide Apply;
    if steps != [] {
      var n := |steps| - 1;
      ResumedNeverRuns(cfg, s, steps[..n], id);
      JobSafety.JobsStayFit(cfg, s, steps[..n]);
      StepLeavesResuming(cfg, Run(cfg, s, steps[..n]), steps[n], id);
    }
  }

  const LONE: State := State([Job(DeepResearch, Resuming, 50, [], None)], [])

  /** In some run, moving jobs forward takes a resumed one out of that status. */
  ghost predicate MayStartResumed(maxJobs: int) {
    exists cfg: Config, steps: seq<Step>, id: nat :: cfg.maxJobs == maxJobs && LeavesResuming(cfg, Run(cfg, EMPTY, steps), id)
  }

  predicate LeavesResuming(cfg: Config, s: State, id: nat) {
    && id < |s.jobs| && s.jobs[id].kind.Capped() && s.jobs[id].status == Resuming
    && Apply(cfg, s, Advance(None)).jobs[id] != s.jobs[id]
  }

  /** A job without tasks that is paused before it starts, and resumed. */
  const TAKEN_BACK: seq<Step> := [Submit(NewJob(DeepResearch, 50, [], []))] + [Pause(0)] + [Resume(0)]

  lemma LoneIsReached(cfg: Config)
    ensures Run(cfg, EMPTY, TAKEN_BACK) == LONE
  {
    var job := NewJob(DeepResearch, 50, [], []);
    var s1, s2 := State([Job(DeepResearch, Queued, 50, [], None)], []), State([Job(DeepResearch, Paused, 50, [], None)], []);
    assert Submitted(EMPTY, job) == s1;
    assert PauseRequested(s1, 0) == s2;
    assert ResumeRequested(s2, 0) == LONE;
    TaskFencing.RunOn(cfg, EMPTY, [], Submit(job));
    TaskFencing.RunOn(cfg, EMPTY, [Submit(job)], Pause(0));
    TaskFencing.RunOn(cfg, EMPTY, [Submit(job)] + [Pause(0)], Resume(0));
    hide Run;
  }

  lemma LoneStarts(cfg: Config)
    requires 2 <= cfg.maxJobs
    ensures LeavesResuming(cfg, LONE, 0)
  {
    assert Ordered(LONE.jobs, None, 0) == [];
    assert Ordered(LONE.jobs, None, 1) == [0];
    assert Listed(LONE.jobs, None) == [0];
    assert CountActive(LONE.jobs, [0]) == 1;
    assert AdvancedAll(cfg, LONE, [], None) == LONE;
    assert AdvancedAll(cfg, LONE, [0], None) == AdvancedOne(cfg, LONE, 0);
  }

  /** A resumed capped job can be started again, in any run at all, exactly when there is room for two. */
  lemma ResumedStartsExactlyWhen(maxJobs: int)
    ensures MayStartResumed(maxJobs) <==> 2 <= maxJobs
  {
    if 2 <= maxJobs {
      var cfg := Config(maxJobs, [], 120);
      LoneIsReached(cfg);
      LoneStarts(cfg);
      hide Run;
      hide LeavesResuming;
      assert LeavesResuming(cfg, Run(cfg, EMPTY, TAKEN_BACK), 0);
    } else {
      forall cfg: Config, steps, id: nat | cfg.maxJobs == maxJobs ensures !LeavesResuming(cfg, Run(cfg, EMPTY, steps), id) {
        var s := Run(cfg, EMPTY, steps);
        JobSafety.JobsStayFit(cfg, EMPTY, steps);
        if id < |s.jobs| && s.jobs[id].kind.Capped() && s.jobs[id].status == Resuming {
          StepLeavesResuming(cfg, s, Advance(None), id);
        }
      }
      hide Apply;
      hide Run;
    }
  }
}
