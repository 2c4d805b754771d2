/** What a failed attempt does to a task: it is handed out again as long as attempts are left, and
    is dead once none is. */
module TaskRetries {
  import opened Options
  import opened Scheduling
  import opened TaskFencing

  predicate Spent(task: Task) {
    task.maxAttempts <= task.attempts
  }

  /** Dead tasks have no attempt left. */
  predicate DeadAreSpent(tasks: seq<Task>) {
    forall i :: 0 <= i < |tasks| && tasks[i].status == DeadLetter ==> Spent(tasks[i])
  }

  /** What any call but a finish leaves of a task's limit: it neither kills the task nor makes it one to retry. */
  predicate Lives(t: Task, t1: Task) {
    && t1.maxAttempts == t.maxAttempts
    && (t1.status == DeadLetter ==> t == t1)
    && (t1.status == Retrying ==> t.status == Retrying && t1.attempts == t.attempts)
  }

  predicate AllLive(tasks: seq<Task>, tasks1: seq<Task>) {
    && |tasks| <= |tasks1|
    && (forall i :: 0 <= i < |tasks| ==> Lives(tasks[i], tasks1[i]))
    && (forall i :: |tasks| <= i < |tasks1| ==> tasks1[i].status == Waiting)
  }

  lemma RecoverLives(s: State, id: nat, now: int)
    requires id < |s.jobs|
    ensures var s1 := Recovered(s, id, now); |s1.tasks| == |s.tasks| && AllLive(s.tasks, s1.tasks)
  {
    hide HasLive;
    hide HasHeld;
    hide HasDead;
    hide Saved;
  }

  lemma LivesChain(a: seq<Task>, b: seq<Task>, c: seq<Task>)
    requires |a| == |b| == |c| && AllLive(a, b) && AllLive(b, c)
    ensures AllLive(a, c)
  {
    forall i | 0 <= i < |a| ensures Lives(a[i], c[i]) {
      assert Lives(a[i], b[i]) && Lives(b[i], c[i]);
    }
  }

  lemma {:induction false} ReconcileLives(s: State, now: int, n: nat)
    requires n <= |s.jobs|
    ensures var s1 := Reconciled(s, now, n); |s1.tasks| == |s.tasks| && AllLive(s.tasks, s1.tasks)
  {
    hide AllLive;
    hide Recovered;
    if n > 0 {
      ReconcileLives(s, now, n - 1);
      var s1 := Reconciled(s, now, n - 1);
      RecoverLives(s1, n - 1, now);
      LivesChain(s.tasks, s1.tasks, Recovered(s1, n - 1, now).tasks);
    } else {
      LivesOn(s.tasks);
    }
  }

  lemma LivesOn(tasks: seq<Task>)
    ensures AllLive(tasks, tasks)
  {
  }

  lemma StepLives(cfg: Config, s: State, step: Step)
    requires !step.Finish?
    ensures AllLive(s.tasks, Apply(cfg, s, step).tasks)
  {
    hide HasLive;
    hide HasHeld;
    hide HasDead;
    hide Saved;
    match step
    case Reconcile(now) => ReconcileLives(s, now, |s.jobs|);
    case Promote => PromoteKeepsTasks(s, Listed(s.jobs, Some(Blocked)));
    case Claim(worker, now) => PickClaimable(cfg, s, now, 0);
    case _ =>
  }

  /** Over any interleaving, manual retries included, a dead task has no attempt left. */
  lemma {:induction false} DeadOnlyWhenSpent(cfg: Config, steps: seq<Step>)
    ensures DeadAreSpent(Run(cfg, EMPTY, steps).tasks)
  {
    if steps != [] {
      var n := |steps| - 1;
      DeadOnlyWhenSpent(cfg, steps[..n]);
      var s := Run(cfg, EMPTY, steps[..n]);
      if !steps[n].Finish? {
        StepLives(cfg, s, steps[n]);
        hide Apply;
      }
    }
  }

  // ------------------------------------------------------------------ claims and finishes

  /** From the beginning, a task's fence is the number of its claims. */
  lemma {:induction false} ClaimsFromNothing(cfg: Config, steps: seq<Step>, i: nat)
    requires NeverRetried(steps, i)
    ensures var s := Run(cfg, EMPTY, steps);
      if i < |s.tasks| then s.tasks[i].attempts == Claims(cfg, EMPTY, steps, i) else Claims(cfg, EMPTY, steps, i) == 0
  {
    hide Apply;
    if steps != [] {
      var n := |steps| - 1;
      ClaimsFromNothing(cfg, steps[..n], i);
      var s := Run(cfg, EMPTY, steps[..n]);
      if i < |s.tasks| {
        AttemptsCount(cfg, s, steps[n], i);
      } else {
        NewTasksUnclaimed(cfg, s, steps[n], i);
      }
    }
  }

  lemma NewTasksUnclaimed(cfg: Config, s: State, step: Step, i: nat)
    requires |s.tasks| <= i
    ensures var s1 := Apply(cfg, s, step); i < |s1.tasks| ==> s1.tasks[i].attempts == 0
    ensures !Takes(cfg, s, step, i)
  {
    match step
    case Submit(job) => EnqueuedFresh(job, |s.jobs|, |job.tasks|);
    case Retry(_) =>
    case _ => TasksStay(cfg, s, step);
  }

  lemma {:induction false} EnqueuedFresh(job: NewJob, id: nat, n: nat)
    requires n <= |job.tasks|
    ensures forall k :: 0 <= k < n ==> Enqueued(job, id, n)[k].attempts == 0
  {
    if n > 0 {
      EnqueuedFresh(job, id, n - 1);
    }
  }

  /** Only a submission adds tasks. */
  lemma TasksStay(cfg: Config, s: State, step: Step)
    requires !step.Submit?
    ensures |Apply(cfg, s, step).tasks| == |s.tasks|
  {
    hide HasLive;
    hide HasHeld;
    hide HasDead;
    hide Saved;
    match step
    case Reconcile(now) => ReconcileLives(s, now, |s.jobs|);
    case Promote => PromoteKeepsTasks(s, Listed(s.jobs, Some(Blocked)));
    case _ =>
  }

  /** The last finish was a failure under the last claim allowed. */
  predicate LastFailed(finishes: seq<Finishing>, maxAttempts: int) {
    finishes != [] && !finishes[|finishes| - 1].ok && maxAttempts <= finishes[|finishes| - 1].claim
  }

  lemma StepDies(cfg: Config, s: State, step: Step, i: nat, finishes: seq<Finishing>)
    requires i < |s.tasks| && step != Retry(i)
    requires s.tasks[i].status == DeadLetter <==> LastFailed(finishes, s.tasks[i].maxAttempts)
    ensures var s1, finishes1 := Apply(cfg, s, step), Extended(s, step, i, finishes);
      i < |s1.tasks| && (s1.tasks[i].status == DeadLetter <==> LastFailed(finishes1, s1.tasks[i].maxAttempts))
  {
    if !step.Finish? {
      StepLives(cfg, s, step);
      TaskProgress(cfg, s, step, i);
      hide Apply;
      assert Lives(s.tasks[i], Apply(cfg, s, step).tasks[i]);
    }
  }

  /** Over any run in which it is not retried by hand a task is dead exactly when the last finish accepted
      for it was a failure, under a claim of at least the number of its attempts; so it has been claimed
      that often. */
  lemma {:induction false} DeadExactlyWhen(cfg: Config, steps: seq<Step>, i: nat)
    requires NeverRetried(steps, i)
    ensures var s, finishes := Run(cfg, EMPTY, steps), Finishes(cfg, EMPTY, steps, i);
      i < |s.tasks| ==>
        && (s.tasks[i].status == DeadLetter <==> LastFailed(finishes, s.tasks[i].maxAttempts))
        && (s.tasks[i].status == DeadLetter ==> s.tasks[i].maxAttempts <= Claims(cfg, EMPTY, steps, i))
  {
    hide Apply;
    hide LastFailed;
    ClaimsFromNothing(cfg, steps, i);
    DeadOnlyWhenSpent(cfg, steps);
    if steps != [] {
      var n := |steps| - 1;
      DeadExactlyWhen(cfg, steps[..n], i);
      var s := Run(cfg, EMPTY, steps[..n]);
      if i < |s.tasks| {
        StepDies(cfg, s, steps[n], i, Finishes(cfg, EMPTY, steps[..n], i));
      } else {
        FinishedOncePerClaim(cfg, steps[..n], i);
        NewTaskLives(cfg, s, steps[n], i);
      }
    }
  }

  lemma NewTaskLives(cfg: Config, s: State, step: Step, i: nat)
    requires |s.tasks| <= i
    ensures var s1 := Apply(cfg, s, step); i < |s1.tasks| ==>
      s1.tasks[i].status != DeadLetter && !LastFailed(Extended(s, step, i, []), s1.tasks[i].maxAttempts)
  {
    if !step.Finish? {
      StepLives(cfg, s, step);
      hide Apply;
    }
  }

  /** The last finish was a failure under this claim, and attempts are left. */
  predicate LastToRetry(finishes: seq<Finishing>, t: Task) {
    && finishes != [] && !finishes[|finishes| - 1].ok
    && finishes[|finishes| - 1].claim == t.attempts && t.attempts < t.maxAttempts
  }

  lemma StepRetries(cfg: Config, s: State, step: Step, i: nat, finishes: seq<Finishing>)
    requires i < |s.tasks| && step != Retry(i)
    requires s.tasks[i].status == Retrying ==> LastToRetry(finishes, s.tasks[i])
    ensures var s1, finishes1 := Apply(cfg, s, step), Extended(s, step, i, finishes);
      i < |s1.tasks| && (s1.tasks[i].status == Retrying ==> LastToRetry(finishes1, s1.tasks[i]))
  {
    if !step.Finish? {
      StepLives(cfg, s, step);
      TaskProgress(cfg, s, step, i);
      hide Apply;
      assert Lives(s.tasks[i], Apply(cfg, s, step).tasks[i]);
    }
  }

  /** A task is marked for another attempt only by a failure of its latest claim, with attempts left. */
  lemma {:induction false} RetryingMeans(cfg: Config, steps: seq<Step>, i: nat)
    requires NeverRetried(steps, i)
    ensures var s := Run(cfg, EMPTY, steps);
      i < |s.tasks| && s.tasks[i].status == Retrying ==> LastToRetry(Finishes(cfg, EMPTY, steps, i), s.tasks[i])
  {
    hide Apply;
    hide LastToRetry;
    if steps != [] {
      var n := |steps| - 1;
      RetryingMeans(cfg, steps[..n], i);
      var s := Run(cfg, EMPTY, steps[..n]);
      if i < |s.tasks| {
        StepRetries(cfg, s, steps[n], i, Finishes(cfg, EMPTY, steps[..n], i));
      } else if !steps[n].Finish? {
        StepLives(cfg, s, steps[n]);
      } else {
        FinishAddsNone(cfg, s, steps[n]);
      }
    }
  }

  lemma FinishAddsNone(cfg: Config, s: State, step: Step)
    requires step.Finish?
    ensures |Apply(cfg, s, step).tasks| == |s.tasks|
  {
  }

  // ------------------------------------------------------------------ handed out again

  /** The last step of the run hands the task out. */
  predicate HandsOut(cfg: Config, s: State, steps: seq<Step>, i: nat) {
    steps != [] && Takes(cfg, Run(cfg, s, steps[..|steps| - 1]), steps[|steps| - 1], i)
  }

  /** The task may be handed out at this time, and its profile has room. */
  predicate Ready(cfg: Config, s: State, i: nat, now: int) {
    && i < |s.tasks| && s.tasks[i].profile < |cfg.caps|
    && Claimable(s, i, s.tasks[i].profile, now)
    && Busy(s.tasks, s.tasks[i].profile, now) < cfg.caps[s.tasks[i].profile]
  }

  lemma {:induction false} SomethingPicked(cfg: Config, s: State, now: int, profile: nat, i: nat)
    requires Ready(cfg, s, i, now) && profile <= s.tasks[i].profile
    ensures Pick(cfg, s, now, profile).Some?
    decreases s.tasks[i].profile - profile
  {
    hide Choice;
    if profile < s.tasks[i].profile {
      SomethingPicked(cfg, s, now, profile + 1, i);
    }
  }

  function BusyOne(task: Task, profile: nat, now: int): nat {
    if task.profile == profile && task.status.Held() && task.lease.Some? && now < task.lease.value then 1 else 0
  }

  lemma {:induction false} BusyChange(tasks: seq<Task>, i: nat, task: Task, profile: nat, now: int)
    requires i < |tasks|
    ensures Busy(tasks[i := task], profile, now) == Busy(tasks, profile, now) - BusyOne(tasks[i], profile, now) + BusyOne(task, profile, now)
  {
    var n := |tasks| - 1;
    if i < n {
      BusyChange(tasks[..n], i, task, profile, now);
      assert tasks[i := task][..n] == tasks[..n][i := task];
    } else {
      assert tasks[i := task][..n] == tasks[..n];
    }
  }

  function CountLive(tasks: seq<Task>): nat {
    if tasks == [] then 0 else CountLive(tasks[..|tasks| - 1]) + (if tasks[|tasks| - 1].status.Live() then 1 else 0)
  }

  lemma {:induction false} LiveChange(tasks: seq<Task>, i: nat, task: Task)
    requires i < |tasks| && tasks[i].status.Live() && !task.status.Live()
    ensures CountLive(tasks[i := task]) + 1 == CountLive(tasks)
  {
    var n := |tasks| - 1;
    if i < n {
      LiveChange(tasks[..n], i, task);
      assert tasks[i := task][..n] == tasks[..n][i := task];
    } else {
      assert tasks[i := task][..n] == tasks[..n];
    }
  }

  lemma {:induction false} RunsAdd(cfg: Config, s: State, a: seq<Step>, b: seq<Step>)
    ensures Run(cfg, s, a + b) == Run(cfg, Run(cfg, s, a), b)
  {
    hide Apply;
    if b == [] {
      assert a + b == a;
    } else {
      var n := |b| - 1;
      RunsAdd(cfg, s, a, b[..n]);
      assert (a + b)[..|a| + n] == a + b[..n];
    }
  }

  /** Somebody else's task is claimed and finished. */
  lemma OtherServed(cfg: Config, s: State, i: nat, x: nat, now: int)
    requires Ready(cfg, s, i, now) && Pick(cfg, s, now, 0) == Some(x) && x != i
    ensures var s1 := Apply(cfg, s, Claim("", now)); var s2 := Apply(cfg, s1, Finish(x, "", true, None));
      Ready(cfg, s2, i, now) && s2.tasks[i] == s.tasks[i] && CountLive(s2.tasks) + 1 == CountLive(s.tasks)
  {
    PickClaimable(cfg, s, now, 0);
    var s1 := Apply(cfg, s, Claim("", now));
    var s2 := Apply(cfg, s1, Finish(x, "", true, None));
    hide Pick;
    assert s2 == s.(tasks := s.tasks[x := s2.tasks[x]]);
    assert s2.tasks[x].status == Succeeded;
    hide Apply;
    BusyChange(s.tasks, x, s2.tasks[x], s.tasks[i].profile, now);
    LiveChange(s.tasks, x, s2.tasks[x]);
  }

  lemma TwoSteps(cfg: Config, s: State, a: Step, b: Step)
    ensures Run(cfg, s, [a] + [b]) == Apply(cfg, Apply(cfg, s, a), b)
  {
    hide Apply;
    RunOn(cfg, s, [a], b);
    RunOn(cfg, s, [], a);
  }

  lemma HandsOutLater(cfg: Config, s: State, first: seq<Step>, rest: seq<Step>, i: nat)
    requires HandsOut(cfg, Run(cfg, s, first), rest, i)
    ensures HandsOut(cfg, s, first + rest, i) && Run(cfg, s, first + rest) == Run(cfg, Run(cfg, s, first), rest)
  {
    hide Run;
    hide Takes;
    var steps, n := first + rest, |rest| - 1;
    RunsAdd(cfg, s, first, rest);
    RunsAdd(cfg, s, first, rest[..n]);
    assert steps[..|steps| - 1] == first + rest[..n];
  }

  /** A task that is ready is handed out once everything more urgent has been served. */
  lemma {:induction false} ReadyIsHandedOut(cfg: Config, s: State, i: nat, now: int) returns (steps: seq<Step>)
    requires Ready(cfg, s, i, now)
    ensures NeverRetried(steps, i) && HandsOut(cfg, s, steps, i)
    ensures Owns(Run(cfg, s, steps), i, "", Some(s.tasks[i].attempts + 1))
    decreases CountLive(s.tasks)
  {
    SomethingPicked(cfg, s, now, 0, i);
    var x := Pick(cfg, s, now, 0).value;
    if x == i {
      steps := [Claim("", now)];
      TakenNow(cfg, s, i, now);
      return;
    }
    OtherServed(cfg, s, i, x, now);
    var first := [Claim("", now)] + [Finish(x, "", true, None)];
    TwoSteps(cfg, s, Claim("", now), Finish(x, "", true, None));
    assert NeverRetried(first, i);
    hide *;
    var s2 := Run(cfg, s, first);
    var rest := ReadyIsHandedOut(cfg, s2, i, now);
    steps := first + rest;
    HandsOutLater(cfg, s, first, rest, i);
    assert NeverRetried(steps, i) by { NeverInBoth(first, rest, i); }
  }

  lemma TakenNow(cfg: Config, s: State, i: nat, now: int)
    requires i < |s.tasks| && Pick(cfg, s, now, 0) == Some(i)
    ensures var steps := [Claim("", now)];
      NeverRetried(steps, i) && HandsOut(cfg, s, steps, i) && Owns(Run(cfg, s, steps), i, "", Some(s.tasks[i].attempts + 1))
  {
    hide Pick;
    RunOn(cfg, s, [], Claim("", now));
    assert [Claim("", now)][..0] == [];
  }

  lemma NeverInBoth(first: seq<Step>, rest: seq<Step>, i: nat)
    requires NeverRetried(first, i) && NeverRetried(rest, i)
    ensures NeverRetried(first + rest, i)
  {
  }

  /** After a failed finish the task is handed out again, without a manual retry and under the next
      fence, exactly when it has attempts left; its job is not withheld and its profile has room. */
  lemma HandedOutAgainExactlyWhen(cfg: Config, s: State, i: nat, worker: string, fence: Option<nat>, now: int)
    requires Owns(s, i, worker, fence) && !(s.tasks[i].job < |s.jobs| && s.jobs[s.tasks[i].job].status.Withheld())
    requires s.tasks[i].profile < |cfg.caps|
    requires Busy(Finished(s, i, worker, false, fence).tasks, s.tasks[i].profile, now) < cfg.caps[s.tasks[i].profile]
    ensures var s1 := Apply(cfg, s, Finish(i, worker, false, fence));
      && ((exists steps :: NeverRetried(steps, i) && HandsOut(cfg, s1, steps, i)) <==> s.tasks[i].attempts < s.tasks[i].maxAttempts)
      && (s.tasks[i].attempts < s.tasks[i].maxAttempts ==>
            exists steps :: NeverRetried(steps, i) && HandsOut(cfg, s1, steps, i)
                            && Owns(Run(cfg, s1, steps), i, "", Some(s.tasks[i].attempts + 1)))
  {
    var s1 := Apply(cfg, s, Finish(i, worker, false, fence));
    if s.tasks[i].attempts < s.tasks[i].maxAttempts {
      assert Ready(cfg, s1, i, now);
      hide Ready;
      hide Run;
      hide Apply;
      var steps := ReadyIsHandedOut(cfg, s1, i, now);
    } else {
      assert s1.tasks[i].status == DeadLetter;
      forall steps | NeverRetried(steps, i) ensures !HandsOut(cfg, s1, steps, i) {
        DeadStaysOut(cfg, s1, i, steps);
      }
    }
  }

  /** A dead task is never handed out until somebody retries it by hand. */
  lemma DeadStaysOut(cfg: Config, s: State, i: nat, steps: seq<Step>)
    requires i < |s.tasks| && s.tasks[i].status == DeadLetter && NeverRetried(steps, i)
    ensures !HandsOut(cfg, s, steps, i)
  {
    if steps != [] {
      var before := steps[..|steps| - 1];
      RunProgress(cfg, s, before, i);
      var last := steps[|steps| - 1];
      if last.Claim? {
        PickClaimable(cfg, Run(cfg, s, before), last.now, 0);
      }
      hide Run;
      hide Pick;
    }
  }

  /** A worker whose lease has run out loses its task: some later claim hands it out under the next fence,
      and nothing the worker reports under its own has any effect. */
  lemma ExpiredIsHandedOut(cfg: Config, s: State, i: nat, now: int) returns (steps: seq<Step>)
    requires i < |s.tasks| && s.tasks[i].status.Held() && s.tasks[i].lease.Some? && s.tasks[i].lease.value <= now
    requires !(s.tasks[i].job < |s.jobs| && s.jobs[s.tasks[i].job].status.Withheld())
    requires s.tasks[i].profile < |cfg.caps| && Busy(s.tasks, s.tasks[i].profile, now) < cfg.caps[s.tasks[i].profile]
    ensures NeverRetried(steps, i) && HandsOut(cfg, s, steps, i)
    ensures Owns(Run(cfg, s, steps), i, "", Some(s.tasks[i].attempts + 1))
    ensures Powerless(cfg, Run(cfg, s, steps), i, s.tasks[i].attempts)
  {
    steps := ReadyIsHandedOut(cfg, s, i, now);
    PowerlessExactlyWhen(cfg, Run(cfg, s, steps), i, s.tasks[i].attempts);
    hide Run;
    hide Powerless;
  }
}
