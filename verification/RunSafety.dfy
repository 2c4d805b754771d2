/** Whole orchestrated histories: every requested move is legal, no gate pauses twice, when the
    loop guard trips, and which interrupted projects can still be completed. */
module RunSafety {
  import opened Options
  import opened ProjectStates
  import opened Manifests
  import opened Orchestration

  // ------------------------------------------------------------------ legality

  /** A call of run, or of resume, under the settings and the world of that moment. */
  datatype Call = Call(resumes: bool, cfg: Settings, w: World)

  function AfterCall(r: Run, call: Call): Run {
    RunToRest(call.cfg, call.w, if call.resumes then Resumed(r) else r, 0).run
  }

  function Session(r: Run, calls: seq<Call>): Run {
    if calls == [] then r else AfterCall(Session(r, calls[..|calls| - 1]), calls[|calls| - 1])
  }

  function Result(t: Turn): Run {
    match t case Go(r, _) => r case Rest(r) => r case Tripped(r) => r
  }

  /** States in which a stop or a pause may be refused; only a killed process leaves them behind. */
  predicate Stranded(state: ProjectState) {
    state in {Fetching, Extracting, Verifying, Iterating, Synthesizing}
  }

  /** States in which the run loop may be entered. */
  predicate Enterable(state: ProjectState) {
    !Stranded(state) && state !in {Created, Clarifying, Planned}
  }

  lemma AnalyseLegal(cfg: Settings, w: World, r: Run)
    requires r.p.state == AnalyzingGaps && r.legal
    ensures var r1 := Analyse(cfg, w, r); r1.legal && Enterable(r1.p.state)
  {
    hide DeclaredPause;
  }

  lemma PassLegal(cfg: Settings, w: World, r: Run, guard: nat)
    requires Enterable(r.p.state) && Looping(r.p.state) && r.legal
    ensures var r1 := Result(LoopPass(cfg, w, r, guard)); r1.legal && Enterable(r1.p.state)
  {
    if r.p.state == AnalyzingGaps {
      AnalyseLegal(cfg, w, r);
      hide Analyse;
    }
  }

  lemma BeforeLoopLegal(cfg: Settings, w: World, r: Run)
    requires !Stranded(r.p.state) && r.legal
    ensures var r1 := BeforeLoop(cfg, w, r); r1.legal && Enterable(r1.p.state)
  {
    hide DeclaredPause;
  }

  lemma ResumedLegal(r: Run)
    requires !Stranded(r.p.state) && r.legal
    ensures var r1 := Resumed(r); r1.legal && !Stranded(r1.p.state)
  {
  }

  lemma {:induction false} LoopLegal(cfg: Settings, w: World, r: Run, guard: nat)
    requires Enterable(r.p.state) && r.legal
    ensures var r1 := RunLoop(cfg, w, r, guard).run; r1.legal && Enterable(r1.p.state)
    decreases if guard < GUARD_LIMIT then GUARD_LIMIT - guard else 0
  {
    hide Legal;
    if Looping(r.p.state) {
      PassLegal(cfg, w, r, guard);
      match LoopPass(cfg, w, r, guard)
      case Go(r1, guard1) => LoopLegal(cfg, w, r1, guard1);
      case _ =>
    }
  }

  lemma RunLegal(cfg: Settings, w: World, r: Run, guard: nat)
    requires !Stranded(r.p.state) && r.legal
    ensures var r1 := RunToRest(cfg, w, r, guard).run; r1.legal && Enterable(r1.p.state)
  {
    BeforeLoopLegal(cfg, w, r);
    LoopLegal(cfg, w, BeforeLoop(cfg, w, r), guard);
    hide BeforeLoop;
    hide RunLoop;
  }

  /** Legality over whole histories: whatever is called, decided and configured, no run and no
      resume of a project that was never killed in the middle of a cycle requests an illegal move. */
  lemma {:induction false} NeverIllegal(r: Run, calls: seq<Call>)
    requires r.legal && !Stranded(r.p.state)
    ensures var r1 := Session(r, calls); r1.legal && !Stranded(r1.p.state)
  {
    hide RunToRest;
    hide Resumed;
    if calls != [] {
      var n := |calls| - 1;
      NeverIllegal(r, calls[..n]);
      var r1 := Session(r, calls[..n]);
      ResumedLegal(r1);
      RunLegal(calls[n].cfg, calls[n].w, if calls[n].resumes then Resumed(r1) else r1, 0);
    }
  }

  /** A world in which the user asks for a stop before the first pass. */
  const STOPPING: World := World(_ => false, _ => true, _ => true, _ => None, (_, _) => StopSignal)

  /** A run can request an illegal move exactly from the states a killed process strands a project in. */
  lemma IllegalExactlyFrom(r: Run)
    requires r.legal
    ensures (exists cfg, w :: !RunToRest(cfg, w, r, 0).run.legal) <==> Stranded(r.p.state)
  {
    if Stranded(r.p.state) {
      var cfg := Settings(false, 1, Loop([], [], [], []));
      assert BeforeLoop(cfg, STOPPING, r) == r;
      assert !LoopPass(cfg, STOPPING, r, 0).run.legal;
      assert !RunToRest(cfg, STOPPING, r, 0).run.legal;
    } else {
      forall cfg, w ensures RunToRest(cfg, w, r, 0).run.legal {
        RunLegal(cfg, w, r, 0);
      }
    }
    hide RunToRest;
  }

  // ------------------------------------------------------------------ gates pause once

  predicate NoRepeats(gates: seq<string>) {
    forall i, j :: 0 <= i < j < |gates| ==> gates[i] != gates[j]
  }

  /** Every gate paused on is approved, or is the one now pending; a new project has paused on none. */
  predicate GatesInOrder(r: Run) {
    && NoRepeats(r.pausedOn)
    && (forall g :: g in r.pausedOn ==> g != "" && (g in r.p.approvedGates || (r.p.state == Paused && r.p.gatePending == Some(g))))
    && (r.p.state == Created ==> r.pausedOn == [])
    && (r.p.state != Paused ==> r.p.gatePending == None)
  }

  lemma PauseOnInOrder(r: Run, gate: string)
    requires GatesInOrder(r) && r.p.state != Paused && gate != ""
    requires gate !in r.p.approvedGates || r.pausedOn == []
    ensures GatesInOrder(PauseOn(r, gate))
  {
  }

  lemma {:induction false} DeclaredPauseIsNew(steps: seq<StepSpec>, step: Step, approved: seq<string>)
    ensures var g := DeclaredPause(steps, step, approved); g.Some? ==> g.value !in approved && g.value != ""
  {
    if steps != [] {
      DeclaredPauseIsNew(steps[1..], step, approved);
    }
  }

  lemma PauseAfterInOrder(r: Run, steps: seq<StepSpec>, step: Step)
    requires GatesInOrder(r) && r.p.state != Paused
    ensures GatesInOrder(PauseAfter(r, steps, step))
  {
    DeclaredPauseIsNew(steps, step, r.p.approvedGates);
    var g := DeclaredPause(steps, step, r.p.approvedGates);
    if g.Some? {
      PauseOnInOrder(r, g.value);
    }
    hide PauseOn;
    hide DeclaredPause;
  }

  lemma ClarifyInOrder(cfg: Settings, w: World, r: Run)
    requires GatesInOrder(r) && r.p.state == Created
    ensures GatesInOrder(ClarifyProblem(cfg, w, r))
  {
    var r1 := Did(To(r, Clarifying), Clarified);
    PauseOnInOrder(r1, WAITING_GATE);
    PauseOnInOrder(r1, PROBLEM_GATE);
    PauseAfterInOrder(r1, cfg.loop.setup, Clarify);
    hide PauseOn;
    hide PauseAfter;
  }

  lemma MakePlanInOrder(cfg: Settings, r: Run)
    requires GatesInOrder(r) && r.p.state == Clarifying
    ensures GatesInOrder(MakePlan(cfg, r))
  {
    var r1 := Did(r, PlannedOut);
    if Holds(cfg, r1, PLAN_GATE) {
      PauseOnInOrder(r1, PLAN_GATE);
    }
    PauseAfterInOrder(To(r1, Planned), cfg.loop.setup, Plan);
    hide PauseOn;
    hide PauseAfter;
  }

  lemma BeforeLoopInOrder(cfg: Settings, w: World, r: Run)
    requires GatesInOrder(r)
    ensures GatesInOrder(BeforeLoop(cfg, w, r))
  {
    var r1 := if r.p.state == Created then ClarifyProblem(cfg, w, r) else r;
    if r.p.state == Created {
      ClarifyInOrder(cfg, w, r);
    }
    if r1.p.state == Clarifying {
      MakePlanInOrder(cfg, r1);
    }
    hide ClarifyProblem;
    hide MakePlan;
  }

  /** Moving on without touching the gates. */
  lemma MovedOnInOrder(r: Run, r1: Run)
    requires GatesInOrder(r) && r.p.state != Paused
    requires r1.pausedOn == r.pausedOn && r1.p.approvedGates == r.p.approvedGates && r1.p.gatePending == r.p.gatePending
    requires r1.p.state != Paused && r1.p.state != Created
    ensures GatesInOrder(r1)
  {
  }

  lemma AnalyseInOrder(cfg: Settings, w: World, r: Run)
    requires GatesInOrder(r) && r.p.state == AnalyzingGaps
    ensures GatesInOrder(Analyse(cfg, w, r))
  {
    var r1 := Did(r, Analysed(r.p.currentIteration));
    if Holds(cfg, r1, CYCLE_GATE) {
      PauseOnInOrder(r1, CYCLE_GATE);
    }
    MovedOnInOrder(r, NextIteration(r1));
    PauseAfterInOrder(NextIteration(r1), cfg.loop.perIteration, EvaluateConvergence);
    hide PauseOn;
    hide PauseAfter;
    hide Legal;
    hide NoRepeats;
    var r2 := Analyse(cfg, w, r);
    if r2.p.state == Converged {
      MovedOnInOrder(r, r2);
    }
    hide GatesInOrder;
  }

  lemma PassInOrder(cfg: Settings, w: World, r: Run, guard: nat)
    requires GatesInOrder(r) && Looping(r.p.state)
    ensures GatesInOrder(Result(LoopPass(cfg, w, r, guard)))
  {
    if r.p.state == AnalyzingGaps {
      AnalyseInOrder(cfg, w, r);
    }
    hide Analyse;
  }

  lemma {:induction false} LoopInOrder(cfg: Settings, w: World, r: Run, guard: nat)
    requires GatesInOrder(r)
    ensures GatesInOrder(RunLoop(cfg, w, r, guard).run)
    decreases if guard < GUARD_LIMIT then GUARD_LIMIT - guard else 0
  {
    hide GatesInOrder;
    if Looping(r.p.state) {
      PassInOrder(cfg, w, r, guard);
      hide LoopPass;
      match LoopPass(cfg, w, r, guard)
      case Go(r1, guard1) => LoopInOrder(cfg, w, r1, guard1);
      case _ =>
    }
  }

  lemma ResumedInOrder(r: Run)
    requires GatesInOrder(r)
    ensures GatesInOrder(Resumed(r))
  {
    hide Legal;
  }

  lemma RunInOrder(cfg: Settings, w: World, r: Run, guard: nat)
    requires GatesInOrder(r)
    ensures GatesInOrder(RunToRest(cfg, w, r, guard).run)
  {
    BeforeLoopInOrder(cfg, w, r);
    LoopInOrder(cfg, w, BeforeLoop(cfg, w, r), guard);
    hide BeforeLoop;
    hide RunLoop;
    var e := RunLoop(cfg, w, BeforeLoop(cfg, w, r), guard);
    if e.run.p.state == Converged && Holds(cfg, e.run, SYNTHESIS_GATE) {
      PauseOnInOrder(e.run, SYNTHESIS_GATE);
      hide PauseOn;
    }
  }

  /** No gate ever pauses a project twice, over any history of runs and resumes. */
  lemma {:induction false} NoGatePausesTwice(calls: seq<Call>)
    ensures GatesInOrder(Session(NEW_PROJECT, calls))
  {
    hide RunToRest;
    hide Resumed;
    if calls != [] {
      var n := |calls| - 1;
      NoGatePausesTwice(calls[..n]);
      var r1 := Session(NEW_PROJECT, calls[..n]);
      if calls[n].resumes {
        ResumedInOrder(r1);
      }
      RunInOrder(calls[n].cfg, calls[n].w, if calls[n].resumes then Resumed(r1) else r1, 0);
    }
  }

  // ------------------------------------------------------------------ the loop guard

  /** The states in which a loop pass does research. */
  predicate Researching(state: ProjectState) {
    state == Searching || state == AnalyzingGaps
  }

  /** Loop passes left at most: two for each iteration that may still run. */
  function PassesLeft(maxIterations: nat, state: ProjectState, iteration: nat): nat {
    var searches := if iteration <= maxIterations then 2 * (maxIterations - iteration + 1) else 2;
    if state == Searching then searches
    else if state == AnalyzingGaps then searches - 1
    else if Looping(state) then 1
    else 0
  }

  lemma PassCounts(cfg: Settings, w: World, r: Run, guard: nat)
    requires Looping(r.p.state) && (Researching(r.p.state) ==> 1 <= r.p.currentIteration) && guard < GUARD_LIMIT
    ensures var t := LoopPass(cfg, w, r, guard);
      && !t.Tripped?
      && (t.Go? ==>
            && (Researching(t.run.p.state) ==> 1 <= t.run.p.currentIteration)
            && PassesLeft(cfg.maxIterations, t.run.p.state, t.run.p.currentIteration) < PassesLeft(cfg.maxIterations, r.p.state, r.p.currentIteration))
  {
    hide DeclaredPause;
    hide Legal;
  }

  lemma {:induction false} LoopNeverTrips(cfg: Settings, w: World, r: Run, guard: nat)
    requires Researching(r.p.state) ==> 1 <= r.p.currentIteration
    requires guard + PassesLeft(cfg.maxIterations, r.p.state, r.p.currentIteration) <= GUARD_LIMIT
    ensures !RunLoop(cfg, w, r, guard).tripped
    decreases if guard < GUARD_LIMIT then GUARD_LIMIT - guard else 0
  {
    if Looping(r.p.state) {
      PassCounts(cfg, w, r, guard);
      hide LoopPass;
      match LoopPass(cfg, w, r, guard)
      case Go(r1, guard1) => LoopNeverTrips(cfg, w, r1, guard1);
      case _ =>
    }
  }

  /** What every run loop starts with: at least the first iteration has begun. */
  lemma BeforeLoopBegins(cfg: Settings, w: World, r: Run)
    requires Researching(r.p.state) ==> 1 <= r.p.currentIteration
    ensures var r1 := BeforeLoop(cfg, w, r); Researching(r1.p.state) ==> 1 <= r1.p.currentIteration
  {
    hide DeclaredPause;
    hide Legal;
  }

  /** With at most 100 iterations no run trips the guard, whatever it meets. */
  lemma NeverTrips(cfg: Settings, w: World, r: Run)
    requires cfg.maxIterations <= 100
    requires Researching(r.p.state) ==> 1 <= r.p.currentIteration
    ensures !RunToRest(cfg, w, r, 0).tripped
  {
    BeforeLoopBegins(cfg, w, r);
    LoopNeverTrips(cfg, w, BeforeLoop(cfg, w, r), 0);
    hide BeforeLoop;
    hide RunLoop;
  }

  /** A world in which there is always more to find and nothing ever stops the search. */
  const ENDLESS: World := World(_ => false, _ => true, _ => true, _ => None, (_, _) => NoSignal)

  /** Two passes of an endless loop: a search and an analysis that begins the next iteration. */
  lemma EndlessPasses(cfg: Settings, r: Run, guard: nat)
    requires cfg == Settings(false, cfg.maxIterations, Loop([], [], [], []))
    requires r.p.state == Searching && r.p.currentIteration < cfg.maxIterations && guard + 1 < GUARD_LIMIT
    ensures var r1 := SearchCycle(ENDLESS, r);
      var r2 := NextIteration(Did(r1, Analysed(r.p.currentIteration)));
      && LoopPass(cfg, ENDLESS, r, guard) == Go(r1, guard + 1) && r1.p.state == AnalyzingGaps
      && LoopPass(cfg, ENDLESS, r1, guard + 1) == Go(r2, guard + 2)
      && r2.p.state == Searching && r2.p.currentIteration == r.p.currentIteration + 1
  {
    hide Legal;
  }

  lemma {:induction false} EndlessLoopTrips(cfg: Settings, r: Run, guard: nat)
    requires cfg == Settings(false, cfg.maxIterations, Loop([], [], [], []))
    requires r.p.state == Searching && 1 <= r.p.currentIteration <= 101 <= cfg.maxIterations
    requires guard == 2 * (r.p.currentIteration - 1)
    ensures RunLoop(cfg, ENDLESS, r, guard).tripped
    decreases GUARD_LIMIT - guard
  {
    hide Legal;
    if guard < GUARD_LIMIT {
      EndlessPasses(cfg, r, guard);
      hide LoopPass;
      hide SearchCycle;
      hide NextIteration;
      var r1 := SearchCycle(ENDLESS, r);
      var r2 := NextIteration(Did(r1, Analysed(r.p.currentIteration)));
      EndlessLoopTrips(cfg, r2, guard + 2);
      assert RunLoop(cfg, ENDLESS, r1, guard + 1) == RunLoop(cfg, ENDLESS, r2, guard + 2);
    }
  }

  lemma EndlessRunTrips(maxIterations: nat)
    requires 100 < maxIterations
    ensures RunToRest(Settings(false, maxIterations, Loop([], [], [], [])), ENDLESS, NEW_PROJECT, 0).tripped
  {
    var cfg := Settings(false, maxIterations, Loop([], [], [], []));
    var r := BeforeLoop(cfg, ENDLESS, NEW_PROJECT);
    assert r.p.state == Searching && r.p.currentIteration == 1;
    EndlessLoopTrips(cfg, r, 0);
    hide RunLoop;
  }

  /** The guard of 200 passes stays out of the way exactly up to 100 iterations;
      configurations allow at most 20. */
  lemma GuardExactlyWhen(maxIterations: nat)
    ensures (forall cfg: Settings, w | cfg.maxIterations == maxIterations :: !RunToRest(cfg, w, NEW_PROJECT, 0).tripped)
      <==> maxIterations <= 100
  {
    hide RunToRest;
    if maxIterations <= 100 {
      forall cfg: Settings, w | cfg.maxIterations == maxIterations ensures !RunToRest(cfg, w, NEW_PROJECT, 0).tripped {
        NeverTrips(cfg, w, NEW_PROJECT);
      }
    } else {
      EndlessRunTrips(maxIterations);
    }
  }

  // ------------------------------------------------------------------ interrupted projects

  /** States a killed or failed process may leave behind that neither run nor resume ever leaves. */
  predicate Inert(state: ProjectState) {
    MidCycle(state) || state == ProjectState.Failed || state == Cancelled
  }

  /** Settings without any reason to pause. */
  predicate Unhindered(cfg: Settings, r: Run) {
    && !cfg.gatesEnabled && cfg.maxIterations <= 100
    && cfg.loop == Loop([], [], [], [])
    && (Researching(r.p.state) ==> 1 <= r.p.currentIteration)
  }

  /** Nobody is asked and nobody interrupts. */
  ghost predicate Quiet(w: World) {
    (forall work :: !w.asks(work)) && (forall work, guard :: w.signal(work, guard) == NoSignal)
  }

  lemma {:induction false} LoopConverges(cfg: Settings, w: World, r: Run, guard: nat)
    requires Quiet(w) && !cfg.gatesEnabled && cfg.loop == Loop([], [], [], [])
    requires Researching(r.p.state) && 1 <= r.p.currentIteration
    requires guard + PassesLeft(cfg.maxIterations, r.p.state, r.p.currentIteration) <= GUARD_LIMIT
    ensures var e := RunLoop(cfg, w, r, guard); !e.tripped && e.run.p.state == Converged
    decreases GUARD_LIMIT - guard
  {
    PassCounts(cfg, w, r, guard);
    var t := LoopPass(cfg, w, r, guard);
    assert t.Go? && (t.run.p.state == Converged || Researching(t.run.p.state)) by {
      hide Legal;
    }
    hide LoopPass;
    if Researching(t.run.p.state) {
      LoopConverges(cfg, w, t.run, t.guard);
    }
  }

  /** A project left in the middle of a cycle, or failed, is not taken up again unless somebody
      interrupts it. */
  lemma InertStaysInert(cfg: Settings, w: World, r: Run)
    requires Inert(r.p.state) && Quiet(w)
    ensures RunToRest(cfg, w, Resumed(r), 0) == Ended(Resumed(r), false)
    ensures Resumed(r).p.state == r.p.state && Resumed(r).work == r.work
  {
  }

  lemma TakenUpBegins(cfg: Settings, w: World, r: Run)
    requires Quiet(w) && Unhindered(cfg, r) && !Inert(r.p.state)
    ensures var r1 := BeforeLoop(cfg, w, Resumed(r));
      && r1.p.state in {Searching, AnalyzingGaps, Converged, Completed}
      && (Researching(r1.p.state) ==> 1 <= r1.p.currentIteration)
  {
    var r1 := Resumed(r);
    assert !Inert(r1.p.state) && r1.p.state != Paused && (Researching(r1.p.state) ==> 1 <= r1.p.currentIteration) by {
      hide Legal;
    }
    hide Resumed;
    hide Legal;
    BeforeLoopBegins(cfg, w, r1);
  }

  /** Resuming completes a project that nothing hinders exactly when it was not left inert. */
  lemma CompletesExactlyWhen(cfg: Settings, w: World, r: Run)
    requires Quiet(w) && Unhindered(cfg, r)
    ensures RunToRest(cfg, w, Resumed(r), 0).run.p.state == Completed <==> !Inert(r.p.state)
  {
    if Inert(r.p.state) {
      InertStaysInert(cfg, w, r);
      hide RunToRest;
    } else {
      TakenUpBegins(cfg, w, r);
      var r1 := BeforeLoop(cfg, w, Resumed(r));
      hide BeforeLoop;
      if Researching(r1.p.state) {
        LoopConverges(cfg, w, r1, 0);
      }
    }
    hide Resumed;
    hide Legal;
  }
}
