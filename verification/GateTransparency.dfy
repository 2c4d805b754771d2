/** Review gates, questions to the user and declared pauses do not change the work a project
    performs, as long as no gate it comes to carries the name of a review gate of another place. */
module GateTransparency {
  import opened Options
  import opened ProjectStates
  import opened Manifests
  import opened Orchestration
  import RunSafety

  /** The name of a declared gate may not be one that resuming takes for another place. */
  predicate SafeName(step: Step, gate: string) {
    match step
    case Clarify => gate != PLAN_GATE && gate != CYCLE_GATE && gate != SYNTHESIS_GATE
    case Plan => gate != PROBLEM_GATE && gate != WAITING_GATE && gate != CYCLE_GATE && gate != SYNTHESIS_GATE
    case EvaluateConvergence =>
      gate != PROBLEM_GATE && gate != WAITING_GATE && gate != PLAN_GATE && gate != CYCLE_GATE && gate != SYNTHESIS_GATE
    case _ => true
  }

  /** The declared pause that follows a step, given the gates approved so far, has a safe name. */
  predicate SafePause(steps: seq<StepSpec>, step: Step, approved: seq<string>) {
    var gate := DeclaredPause(steps, step, approved);
    gate.Some? ==> SafeName(step, gate.value)
  }

  // ------------------------------------------------------------------ the gates approved on the way

  /** The gates approved once the problem is clarified: of the question to the user, the review gate or
      a declared pause, in that order, only the first holds the project. */
  function AfterClarifying(loop: Loop, gates: bool, asked: bool): seq<string> {
    if asked then [WAITING_GATE] else if gates then [PROBLEM_GATE] else Approve([], DeclaredPause(loop.setup, Clarify, []))
  }

  function AfterPlanning(loop: Loop, gates: bool, asked: bool): seq<string> {
    var approved := AfterClarifying(loop, gates, asked);
    if gates && PLAN_GATE !in approved then Approve(approved, Some(PLAN_GATE))
    else Approve(approved, DeclaredPause(loop.setup, Plan, approved))
  }

  /** The gates approved at the beginning of an iteration. */
  function AtIteration(loop: Loop, gates: bool, asked: bool, it: nat): seq<string> {
    if it <= 1 then AfterPlanning(loop, gates, asked)
    else
      var approved := AtIteration(loop, gates, asked, it - 1);
      if it == 2 && gates && CYCLE_GATE !in approved then Approve(approved, Some(CYCLE_GATE))
      else Approve(approved, DeclaredPause(loop.perIteration, EvaluateConvergence, approved))
  }

  predicate SafeClarifying(loop: Loop, gates: bool, asked: bool) {
    asked || gates || SafePause(loop.setup, Clarify, [])
  }

  predicate SafePlanning(loop: Loop, gates: bool, asked: bool) {
    var approved := AfterClarifying(loop, gates, asked);
    (gates && PLAN_GATE !in approved) || SafePause(loop.setup, Plan, approved)
  }

  predicate SafeIteration(loop: Loop, gates: bool, asked: bool, it: nat) {
    var approved := AtIteration(loop, gates, asked, it);
    (it == 1 && gates && CYCLE_GATE !in approved) || SafePause(loop.perIteration, EvaluateConvergence, approved)
  }

  /** Every declared pause that a project of the given number of iterations comes to has a safe name. */
  predicate SafeRun(loop: Loop, gates: bool, asked: bool, maxIterations: nat) {
    && SafeClarifying(loop, gates, asked)
    && SafePlanning(loop, gates, asked)
    && forall it: nat :: 1 <= it < maxIterations ==> SafeIteration(loop, gates, asked, it)
  }

  /** Nobody interrupts the run. */
  ghost predicate Uninterrupted(w: World) {
    forall work, guard :: w.signal(work, guard) == NoSignal
  }

  /** The same project without gates, questions and declared pauses. */
  function Straight(cfg: Settings): Settings {
    Settings(false, cfg.maxIterations, Loop([], [], [], []))
  }

  function Unasked(w: World): World {
    w.(asks := _ => false)
  }

  /** The facts about a run that do not concern gates. */
  predicate Same(r: Run, r0: Run) {
    && r.p.state == r0.p.state
    && r.p.stopReason == r0.p.stopReason
    && r.p.currentIteration == r0.p.currentIteration
    && r.work == r0.work
  }

  /** A project between two phases of an uninterrupted run. */
  predicate Ready(cfg: Settings, r: Run, guard: nat) {
    && r.p.gatePending == None
    && match r.p.state
       case Created => r.work == [] && r.p.currentIteration == 0 && r.p.stopReason == None && guard == 0
       case Clarifying => Clarified in r.work && PlannedOut !in r.work && r.p.currentIteration == 0 && r.p.stopReason == None && guard == 0
       case Planned => Clarified in r.work && PlannedOut in r.work && r.p.currentIteration == 0 && r.p.stopReason == None && guard == 0
       case Searching => InLoop(cfg, r, guard)
       case AnalyzingGaps => InLoop(cfg, r, guard)
       case Converged => true
       case Completed => true
       case _ => false
  }

  predicate InLoop(cfg: Settings, r: Run, guard: nat) {
    && r.p.stopReason == None
    && 1 <= r.p.currentIteration
    && (r.p.currentIteration == 1 || r.p.currentIteration <= cfg.maxIterations)
    && guard <= 2 * (r.p.currentIteration - 1) + (if r.p.state == AnalyzingGaps then 1 else 0)
  }

  /** One turn; if it pauses, the project is resumed at once. */
  datatype Point = Point(run: Run, guard: nat)

  function Stride(cfg: Settings, w: World, at: Point): Point {
    match Next(cfg, w, at.run, at.guard)
    case Go(r, guard) => if r.p.state == Paused then Point(Resumed(r), 0) else Point(r, guard)
    case Rest(r) => Point(r, at.guard)
    case Tripped(r) => Point(r, at.guard)
  }

  /** The point reached after a number of strides. */
  function After(cfg: Settings, w: World, at: Point, n: nat): Point
    decreases n
  {
    if n == 0 then at else After(cfg, w, Stride(cfg, w, at), n - 1)
  }

  const BEGINNING: Point := Point(NEW_PROJECT, 0)

  /** The gate names differ in length. */
  lemma DistinctGates()
    ensures |PROBLEM_GATE| == 24 && |PLAN_GATE| == 27 && |CYCLE_GATE| == 26 && |SYNTHESIS_GATE| == 22 && |WAITING_GATE| == 16
  {
  }

  /** A pause taken in the given state of a run is resumed in that state. */
  predicate ResumesInPlace(r: Run, r1: Run) {
    var r2 := Resumed(r1);
    r1.p.state == Paused && Same(r2, r) && r2.p.gatePending == None
  }

  lemma DeclaredPauseInPlace(cfg: Settings, r: Run, steps: seq<StepSpec>, step: Step, guard: nat)
    requires SafePause(steps, step, r.p.approvedGates) && Ready(cfg, r, guard)
    requires (step == Clarify && r.p.state == Clarifying) || (step == Plan && r.p.state == Planned)
      || (step == EvaluateConvergence && r.p.state == Searching)
    ensures var r1 := PauseAfter(r, steps, step); r1 == r || ResumesInPlace(r, r1)
  {
    hide DeclaredPause;
    hide Legal;
  }

  /** What a turn with gates and one without may lead to: the same place once any pause is resumed. */
  predicate Leads(cfg: Settings, r: Run, r0: Run, guard: nat) {
    if r.p.state == Paused then
      Same(Resumed(r), r0) && Ready(cfg, Resumed(r), 0)
    else
      Same(r, r0) && Ready(cfg, r, guard)
  }

  /** Whatever declared pause the project comes to in its next turn has a safe name. */
  predicate SafeHere(cfg: Settings, w: World, r: Run) {
    match r.p.state
    case Created => w.asks([Clarified]) || Holds(cfg, r, PROBLEM_GATE) || SafePause(cfg.loop.setup, Clarify, r.p.approvedGates)
    case Clarifying => Holds(cfg, r, PLAN_GATE) || SafePause(cfg.loop.setup, Plan, r.p.approvedGates)
    case AnalyzingGaps =>
      || cfg.maxIterations <= r.p.currentIteration
      || (r.p.currentIteration == 1 && Holds(cfg, r, CYCLE_GATE))
      || SafePause(cfg.loop.perIteration, EvaluateConvergence, r.p.approvedGates)
    case _ => true
  }

  lemma NothingDeclared(r: Run, step: Step)
    ensures PauseAfter(r, [], step) == r
  {
  }

  lemma ClarifyLeads(cfg: Settings, w: World, r: Run, r0: Run)
    requires Ready(cfg, r, 0) && Same(r, r0) && r.p.state == Created && SafeHere(cfg, w, r)
    ensures Leads(cfg, ClarifyProblem(cfg, w, r), ClarifyProblem(Straight(cfg), Unasked(w), r0), 0)
    ensures ClarifyProblem(Straight(cfg), Unasked(w), r0).p.state == Clarifying
  {
    DistinctGates();
    hide Legal;
    var r1 := Did(To(r, Clarifying), Clarified);
    assert r1.work == [Clarified];
    if !w.asks(r1.work) && !Holds(cfg, r1, PROBLEM_GATE) {
      DeclaredPauseInPlace(cfg, r1, cfg.loop.setup, Clarify, 0);
    }
    NothingDeclared(Did(To(r0, Clarifying), Clarified), Clarify);
    hide PauseAfter;
  }

  lemma PlanLeads(cfg: Settings, w: World, r: Run, r0: Run)
    requires Ready(cfg, r, 0) && Same(r, r0) && r.p.state == Clarifying && SafeHere(cfg, w, r)
    ensures Leads(cfg, MakePlan(cfg, r), MakePlan(Straight(cfg), r0), 0)
    ensures MakePlan(Straight(cfg), r0).p.state == Planned
  {
    DistinctGates();
    hide Legal;
    var r1 := To(Did(r, PlannedOut), Planned);
    assert PlannedOut in r1.work;
    if !Holds(cfg, r, PLAN_GATE) {
      DeclaredPauseInPlace(cfg, r1, cfg.loop.setup, Plan, 0);
    }
    NothingDeclared(To(Did(r0, PlannedOut), Planned), Plan);
    hide PauseAfter;
  }

  lemma IterationLeads(cfg: Settings, r: Run, r0: Run, guard: nat)
    requires Ready(cfg, NextIteration(r), guard) && Same(r, r0) && r.p.gatePending == None
    ensures SafePause(cfg.loop.perIteration, EvaluateConvergence, r.p.approvedGates) ==>
      Leads(cfg, PauseAfter(NextIteration(r), cfg.loop.perIteration, EvaluateConvergence), PauseAfter(NextIteration(r0), [], EvaluateConvergence), guard)
    ensures PauseAfter(NextIteration(r0), [], EvaluateConvergence).p.state == Searching
    ensures Leads(cfg, PauseOn(r, CYCLE_GATE), NextIteration(r0), guard)
  {
    DistinctGates();
    hide Legal;
    if SafePause(cfg.loop.perIteration, EvaluateConvergence, r.p.approvedGates) {
      DeclaredPauseInPlace(cfg, NextIteration(r), cfg.loop.perIteration, EvaluateConvergence, guard);
    }
    NothingDeclared(NextIteration(r0), EvaluateConvergence);
    hide PauseAfter;
  }

  predicate Decided(cfg: Settings, w: World, r: Run) {
    w.decision(Did(r, Analysed(r.p.currentIteration)).work).Some? || cfg.maxIterations <= r.p.currentIteration
  }

  lemma DecisionLeads(cfg: Settings, w: World, r: Run, r0: Run, guard: nat)
    requires Ready(cfg, r, guard) && Same(r, r0) && r.p.state == AnalyzingGaps && Decided(cfg, w, r)
    ensures Leads(cfg, Analyse(cfg, w, r), Analyse(Straight(cfg), Unasked(w), r0), guard + 1)
    ensures Analyse(Straight(cfg), Unasked(w), r0).p.state != Paused
  {
    hide PauseAfter;
    hide PauseOn;
    hide Legal;
    hide Resumed;
  }

  lemma UndecidedAnalysis(cfg: Settings, w: World, r: Run)
    requires !Decided(cfg, w, r)
    ensures Analyse(cfg, w, r) ==
      (if r.p.currentIteration == 1 && Holds(cfg, r, CYCLE_GATE) then PauseOn(Did(r, Analysed(r.p.currentIteration)), CYCLE_GATE)
       else PauseAfter(NextIteration(Did(r, Analysed(r.p.currentIteration))), cfg.loop.perIteration, EvaluateConvergence))
  {
    hide PauseAfter;
    hide PauseOn;
  }

  lemma AnalysisLeads(cfg: Settings, w: World, r: Run, r0: Run, guard: nat)
    requires Ready(cfg, r, guard) && Same(r, r0) && r.p.state == AnalyzingGaps && SafeHere(cfg, w, r)
    ensures Leads(cfg, Analyse(cfg, w, r), Analyse(Straight(cfg), Unasked(w), r0), guard + 1)
    ensures Analyse(Straight(cfg), Unasked(w), r0).p.state != Paused
  {
    if Decided(cfg, w, r) {
      DecisionLeads(cfg, w, r, r0, guard);
    } else {
      hide Legal;
      UndecidedAnalysis(cfg, w, r);
      UndecidedAnalysis(Straight(cfg), Unasked(w), r0);
      var r1, r01 := Did(r, Analysed(r.p.currentIteration)), Did(r0, Analysed(r.p.currentIteration));
      IterationLeads(cfg, r1, r01, guard + 1);
      hide Leads;
    }
    hide Analyse;
    hide PauseAfter;
    hide PauseOn;
    hide SafePause;
  }

  lemma SearchLeads(cfg: Settings, w: World, r: Run, r0: Run, guard: nat)
    requires Ready(cfg, r, guard) && Same(r, r0) && r.p.state == Searching
    ensures Leads(cfg, SearchCycle(w, r), SearchCycle(Unasked(w), r0), guard + 1)
  {
    hide Legal;
  }

  /** A stride of the gated run leads where a stride of the straight run leads, unless it only
      passes the gate before synthesis. */
  predicate StridesMatch(cfg: Settings, at: Point, next: Point, at0: Point, next0: Point) {
    && Ready(cfg, next.run, next.guard)
    && (|| Same(next.run, next0.run)
        || (&& !Finishing(at.run) && Finishing(next.run) && Same(next.run, at0.run)))
  }

  /** Nothing is left to ask: the project converged with its last gate approved, or it completed. */
  predicate Finishing(r: Run) {
    (r.p.state == Converged && SYNTHESIS_GATE in r.p.approvedGates) || r.p.state == Completed
  }

  lemma SetupMatches(cfg: Settings, w: World, at: Point, at0: Point)
    requires SafeHere(cfg, w, at.run) && at.run.p.state in {Created, Clarifying, Planned}
    requires Ready(cfg, at.run, at.guard) && Same(at.run, at0.run) && at0.guard == 0
    ensures StridesMatch(cfg, at, Stride(cfg, w, at), at0, Stride(Straight(cfg), Unasked(w), at0))
  {
    var r, r0 := at.run, at0.run;
    if r.p.state == Created {
      ClarifyLeads(cfg, w, r, r0);
      hide ClarifyProblem;
    } else if r.p.state == Clarifying {
      PlanLeads(cfg, w, r, r0);
      hide MakePlan;
    }
    hide Legal;
    hide Resumed;
  }

  lemma LoopMatches(cfg: Settings, w: World, at: Point, at0: Point)
    requires SafeHere(cfg, w, at.run) && Uninterrupted(w) && cfg.maxIterations <= 100
    requires at.run.p.state in {Searching, AnalyzingGaps}
    requires Ready(cfg, at.run, at.guard) && Ready(Straight(cfg), at0.run, at0.guard) && Same(at.run, at0.run)
    ensures StridesMatch(cfg, at, Stride(cfg, w, at), at0, Stride(Straight(cfg), Unasked(w), at0))
  {
    var r, r0 := at.run, at0.run;
    if r.p.state == AnalyzingGaps {
      AnalysisLeads(cfg, w, r, r0, at.guard);
    } else {
      SearchLeads(cfg, w, r, r0, at.guard);
      SearchNeverPauses(w, r);
      SearchNeverPauses(Unasked(w), r0);
    }
    hide Analyse;
    hide SearchCycle;
    hide Resumed;
  }

  lemma SearchNeverPauses(w: World, r: Run)
    ensures SearchCycle(w, r).p.state in {Converged, AnalyzingGaps}
  {
    hide Legal;
  }

  lemma EndMatches(cfg: Settings, w: World, at: Point, at0: Point)
    requires at.run.p.state in {Converged, Completed}
    requires Ready(cfg, at.run, at.guard) && Same(at.run, at0.run)
    ensures StridesMatch(cfg, at, Stride(cfg, w, at), at0, Stride(Straight(cfg), Unasked(w), at0))
  {
    DistinctGates();
    hide Legal;
  }

  lemma StrideMatches(cfg: Settings, w: World, at: Point, at0: Point)
    requires SafeHere(cfg, w, at.run) && Uninterrupted(w) && cfg.maxIterations <= 100
    requires Ready(cfg, at.run, at.guard) && Ready(Straight(cfg), at0.run, at0.guard) && Same(at.run, at0.run)
    ensures StridesMatch(cfg, at, Stride(cfg, w, at), at0, Stride(Straight(cfg), Unasked(w), at0))
  {
    hide Stride;
    hide StridesMatch;
    if at.run.p.state in {Created, Clarifying, Planned} {
      SetupMatches(cfg, w, at, at0);
    } else if at.run.p.state in {Searching, AnalyzingGaps} {
      LoopMatches(cfg, w, at, at0);
    } else {
      EndMatches(cfg, w, at, at0);
    }
  }

  /** A straight run goes from one phase to the next without pausing. */
  lemma StraightStaysReady(cfg: Settings, w: World, at: Point)
    requires Uninterrupted(w) && cfg.maxIterations <= 100 && Ready(Straight(cfg), at.run, at.guard)
    ensures var next := Stride(Straight(cfg), Unasked(w), at); Ready(Straight(cfg), next.run, next.guard)
    ensures at.run.p.state != Completed ==> Next(Straight(cfg), Unasked(w), at.run, at.guard).Go?
  {
    assert SafeHere(Straight(cfg), Unasked(w), at.run);
    StrideMatches(Straight(cfg), Unasked(w), at, at);
    hide Same;
  }

  lemma StraightNeverPauses(cfg: Settings, w: World, at: Point)
    requires Uninterrupted(w) && Ready(Straight(cfg), at.run, at.guard)
    ensures match Next(Straight(cfg), Unasked(w), at.run, at.guard)
      case Go(r, _) => r.p.state != Paused
      case _ => true
  {
    hide Legal;
  }

  // ------------------------------------------------------------------ whole runs

  predicate Matched(cfg: Settings, at: Point, at0: Point) {
    Ready(cfg, at.run, at.guard) && Ready(Straight(cfg), at0.run, at0.guard) && Same(at.run, at0.run)
  }

  /** The gates approved so far are those of the project's way to where it is. */
  predicate OnTrack(cfg: Settings, w: World, r: Run) {
    var asked := w.asks([Clarified]);
    match r.p.state
    case Created => r.p.approvedGates == []
    case Clarifying => r.p.approvedGates == AfterClarifying(cfg.loop, cfg.gatesEnabled, asked)
    case Planned => r.p.approvedGates == AfterPlanning(cfg.loop, cfg.gatesEnabled, asked)
    case Searching => r.p.approvedGates == AtIteration(cfg.loop, cfg.gatesEnabled, asked, r.p.currentIteration)
    case AnalyzingGaps => r.p.approvedGates == AtIteration(cfg.loop, cfg.gatesEnabled, asked, r.p.currentIteration)
    case _ => true
  }

  /** A project whose gates are all safe is safe wherever its way leads it. */
  predicate SafeWay(cfg: Settings, w: World) {
    SafeRun(cfg.loop, cfg.gatesEnabled, w.asks([Clarified]), cfg.maxIterations)
  }

  lemma TrackedIsSafe(cfg: Settings, w: World, r: Run, guard: nat)
    requires SafeWay(cfg, w) && OnTrack(cfg, w, r) && Ready(cfg, r, guard)
    ensures SafeHere(cfg, w, r)
  {
    if r.p.state == AnalyzingGaps && r.p.currentIteration < cfg.maxIterations {
      assert SafeIteration(cfg.loop, cfg.gatesEnabled, w.asks([Clarified]), r.p.currentIteration);
    }
    hide AtIteration;
    hide SafePause;
  }

  /** Where a turn leaves the project once any pause is resumed. */
  function Landed(r: Run): Run {
    if r.p.state == Paused then Resumed(r) else r
  }

  lemma PauseApproves(r: Run, gate: string)
    requires Legal(r.p.state, Paused)
    ensures Landed(PauseOn(r, gate)).p.approvedGates == Approve(r.p.approvedGates, Some(gate))
  {
    hide Legal;
  }

  lemma DeclaredApproves(r: Run, steps: seq<StepSpec>, step: Step)
    requires Legal(r.p.state, Paused) && r.p.state != Paused
    ensures Landed(PauseAfter(r, steps, step)).p.approvedGates == Approve(r.p.approvedGates, DeclaredPause(steps, step, r.p.approvedGates))
  {
    var gate := DeclaredPause(steps, step, r.p.approvedGates);
    if gate.Some? {
      PauseApproves(r, gate.value);
    }
    hide DeclaredPause;
    hide Legal;
  }

  lemma ClarifyTracks(cfg: Settings, w: World, r: Run)
    requires r.p.state == Created && r.work == [] && r.p.approvedGates == []
    ensures Landed(ClarifyProblem(cfg, w, r)).p.approvedGates == AfterClarifying(cfg.loop, cfg.gatesEnabled, w.asks([Clarified]))
  {
    var r1 := Did(To(r, Clarifying), Clarified);
    assert r1.work == [Clarified];
    PauseApproves(r1, WAITING_GATE);
    PauseApproves(r1, PROBLEM_GATE);
    DeclaredApproves(r1, cfg.loop.setup, Clarify);
    hide PauseAfter;
    hide PauseOn;
    hide Landed;
    hide DeclaredPause;
    assert Approve([], Some(WAITING_GATE)) == [WAITING_GATE] && Approve([], Some(PROBLEM_GATE)) == [PROBLEM_GATE];
  }

  lemma PlanTracks(cfg: Settings, r: Run)
    requires r.p.state == Clarifying
    ensures Landed(MakePlan(cfg, r)).p.approvedGates ==
      if Holds(cfg, r, PLAN_GATE) then Approve(r.p.approvedGates, Some(PLAN_GATE))
      else Approve(r.p.approvedGates, DeclaredPause(cfg.loop.setup, Plan, r.p.approvedGates))
  {
    PauseApproves(Did(r, PlannedOut), PLAN_GATE);
    DeclaredApproves(To(Did(r, PlannedOut), Planned), cfg.loop.setup, Plan);
    hide PauseAfter;
    hide PauseOn;
    hide Landed;
    hide DeclaredPause;
  }

  /** Analysis converges, pauses on the cycle gate, or goes on to where a declared pause may hold it. */
  lemma AnalysisBranches(cfg: Settings, w: World, r: Run)
    requires r.p.state == AnalyzingGaps
    ensures var r1, r2 := Did(r, Analysed(r.p.currentIteration)), Analyse(cfg, w, r);
      || r2.p.state == Converged
      || r2 == (if r.p.currentIteration == 1 && Holds(cfg, r, CYCLE_GATE) then PauseOn(r1, CYCLE_GATE)
                else PauseAfter(NextIteration(r1), cfg.loop.perIteration, EvaluateConvergence))
  {
    hide PauseAfter;
    hide PauseOn;
    hide Legal;
  }

  lemma AnalysisTracks(cfg: Settings, w: World, r: Run)
    requires r.p.state == AnalyzingGaps
    ensures var r1 := Analyse(cfg, w, r);
      r1.p.state == Converged ||
        Landed(r1).p.approvedGates ==
          if r.p.currentIteration == 1 && Holds(cfg, r, CYCLE_GATE) then Approve(r.p.approvedGates, Some(CYCLE_GATE))
          else Approve(r.p.approvedGates, DeclaredPause(cfg.loop.perIteration, EvaluateConvergence, r.p.approvedGates))
  {
    var r1 := Did(r, Analysed(r.p.currentIteration));
    AnalysisBranches(cfg, w, r);
    PauseApproves(r1, CYCLE_GATE);
    DeclaredApproves(NextIteration(r1), cfg.loop.perIteration, EvaluateConvergence);
    hide Analyse;
    hide Holds;
    hide PauseAfter;
    hide PauseOn;
    hide Landed;
    hide Approve;
    hide DeclaredPause;
  }

  /** A stride that leads where the straight run's does keeps the project on its way. */
  lemma StrideTracks(cfg: Settings, w: World, at: Point, at0: Point)
    requires Uninterrupted(w) && SafeHere(cfg, w, at.run) && OnTrack(cfg, w, at.run) && cfg.maxIterations <= 100
    requires Ready(cfg, at.run, at.guard) && Ready(Straight(cfg), at0.run, at0.guard) && Same(at.run, at0.run)
    ensures OnTrack(cfg, w, Stride(cfg, w, at).run)
  {
    var r, r0 := at.run, at0.run;
    match r.p.state
    case Created => SetupTracks(cfg, w, at, at0);
    case Clarifying => SetupTracks(cfg, w, at, at0);
    case AnalyzingGaps => IterationTracks(cfg, w, at, at0);
    case Searching =>
      SearchNeverPauses(w, r);
      SearchKeepsApprovals(w, r);
      hide SearchCycle;
      hide AtIteration;
    case _ =>
      hide AfterPlanning;
      hide Legal;
  }

  lemma SearchKeepsApprovals(w: World, r: Run)
    ensures SearchCycle(w, r).p.approvedGates == r.p.approvedGates && SearchCycle(w, r).p.currentIteration == r.p.currentIteration
  {
    hide Legal;
  }

  lemma SetupTracks(cfg: Settings, w: World, at: Point, at0: Point)
    requires SafeHere(cfg, w, at.run) && OnTrack(cfg, w, at.run) && at.run.p.state in {Created, Clarifying}
    requires Ready(cfg, at.run, at.guard) && Same(at.run, at0.run)
    ensures OnTrack(cfg, w, Stride(cfg, w, at).run)
  {
    var r, r0 := at.run, at0.run;
    if r.p.state == Created {
      ClarifyLeads(cfg, w, r, r0);
      ClarifyTracks(cfg, w, r);
      hide ClarifyProblem;
    } else {
      PlanLeads(cfg, w, r, r0);
      PlanTracks(cfg, r);
      hide MakePlan;
    }
    hide AfterClarifying;
    hide DeclaredPause;
    hide Legal;
    hide Resumed;
    hide SafePause;
  }

  lemma AnalysisStride(cfg: Settings, w: World, at: Point)
    requires Uninterrupted(w) && at.run.p.state == AnalyzingGaps && at.guard < GUARD_LIMIT
    ensures Stride(cfg, w, at).run == Landed(Analyse(cfg, w, at.run))
  {
    hide Analyse;
    hide Resumed;
  }

  lemma LandsInStep(cfg: Settings, r: Run, r0: Run, guard: nat)
    requires Leads(cfg, r, r0, guard)
    ensures Same(Landed(r), r0)
  {
    hide Resumed;
    hide Ready;
  }

  /** The next iteration begins with the gate approved that held the last one. */
  lemma NextOnTrack(cfg: Settings, w: World, r: Run, r1: Run)
    requires OnTrack(cfg, w, r) && r.p.state == AnalyzingGaps && 1 <= r.p.currentIteration
    requires r1.p.state == Searching && r1.p.currentIteration == r.p.currentIteration + 1
    requires r1.p.approvedGates ==
      if r.p.currentIteration == 1 && Holds(cfg, r, CYCLE_GATE) then Approve(r.p.approvedGates, Some(CYCLE_GATE))
      else Approve(r.p.approvedGates, DeclaredPause(cfg.loop.perIteration, EvaluateConvergence, r.p.approvedGates))
    ensures OnTrack(cfg, w, r1)
  {
    hide DeclaredPause;
    hide AfterPlanning;
    hide Approve;
  }

  lemma IterationTracks(cfg: Settings, w: World, at: Point, at0: Point)
    requires Uninterrupted(w) && SafeHere(cfg, w, at.run) && OnTrack(cfg, w, at.run) && at.run.p.state == AnalyzingGaps
    requires Ready(cfg, at.run, at.guard) && Same(at.run, at0.run) && cfg.maxIterations <= 100
    ensures OnTrack(cfg, w, Stride(cfg, w, at).run)
  {
    var r, r0 := at.run, at0.run;
    hide Analyse;
    hide Landed;
    hide Leads;
    hide Stride;
    hide SafeHere;
    hide DeclaredPause;
    hide Approve;
    AnalysisLeads(cfg, w, r, r0, at.guard);
    AnalysisTracks(cfg, w, r);
    AnalysisGoesOn(Straight(cfg), Unasked(w), r0);
    AnalysisStride(cfg, w, at);
    var end := Analyse(cfg, w, r);
    LandsInStep(cfg, end, Analyse(Straight(cfg), Unasked(w), r0), at.guard + 1);
    if end.p.state == Converged || Landed(end).p.state == Converged {
      ConvergedOnTrack(cfg, w, Landed(end), end);
    } else {
      NextOnTrack(cfg, w, r, Landed(end));
    }
  }

  lemma ConvergedOnTrack(cfg: Settings, w: World, r: Run, r1: Run)
    requires r.p.state == Converged || (r == Landed(r1) && r1.p.state == Converged)
    ensures OnTrack(cfg, w, r)
  {
  }

  /** Without gates analysis converges or begins the next iteration. */
  lemma AnalysisGoesOn(cfg: Settings, w: World, r: Run)
    requires r.p.state == AnalyzingGaps && !cfg.gatesEnabled && cfg.loop == Loop([], [], [], [])
    ensures var r1 := Analyse(cfg, w, r);
      r1.p.state == Converged || (r1.p.state == Searching && r1.p.currentIteration == r.p.currentIteration + 1)
  {
    NothingDeclared(NextIteration(Did(r, Analysed(r.p.currentIteration))), EvaluateConvergence);
    hide PauseAfter;
    hide Legal;
  }

  /** One stride: both runs move on, or only the gated one does, past its last gate. */
  lemma OneStride(cfg: Settings, w: World, at: Point, at0: Point)
    requires SafeHere(cfg, w, at.run) && Uninterrupted(w) && cfg.maxIterations <= 100
    requires Matched(cfg, at, at0)
    ensures var next, next0 := Stride(cfg, w, at), Stride(Straight(cfg), Unasked(w), at0);
      || Matched(cfg, next, next0)
      || (Matched(cfg, next, at0) && Finishing(next.run))
  {
    StrideMatches(cfg, w, at, at0);
    StraightStaysReady(cfg, w, at0);
    hide Stride;
    hide Ready;
  }

  lemma FinishingFollows(cfg: Settings, w: World, at: Point, at0: Point)
    requires Matched(cfg, at, at0) && Finishing(at.run)
    ensures var next := Stride(cfg, w, at);
      Finishing(next.run) && Matched(cfg, next, Stride(Straight(cfg), Unasked(w), at0))
  {
    hide Legal;
  }

  lemma {:induction false} FinishingInStep(cfg: Settings, w: World, at: Point, at0: Point, n: nat)
    requires Matched(cfg, at, at0) && Finishing(at.run)
    ensures var r := After(cfg, w, at, n).run;
      r.p.gatePending == None && Same(r, After(Straight(cfg), Unasked(w), at0, n).run)
    decreases n
  {
    if n > 0 {
      FinishingFollows(cfg, w, at, at0);
      hide Stride;
      hide Ready;
      FinishingInStep(cfg, w, Stride(cfg, w, at), Stride(Straight(cfg), Unasked(w), at0), n - 1);
    }
  }

  lemma AfterUnfolds(cfg: Settings, w: World, at: Point, n: nat)
    ensures After(cfg, w, at, n) == if n == 0 then at else After(cfg, w, Stride(cfg, w, at), n - 1)
  {
  }

  /** One stride of a project on its safe way. */
  lemma OneStrideOn(cfg: Settings, w: World, at: Point, at0: Point)
    requires SafeWay(cfg, w) && Uninterrupted(w) && cfg.maxIterations <= 100
    requires Matched(cfg, at, at0) && OnTrack(cfg, w, at.run)
    ensures var next, next0 := Stride(cfg, w, at), Stride(Straight(cfg), Unasked(w), at0);
      && OnTrack(cfg, w, next.run)
      && (Matched(cfg, next, next0) || (Matched(cfg, next, at0) && Finishing(next.run)))
  {
    hide OnTrack;
    hide SafeHere;
    hide SafeWay;
    hide Stride;
    hide Ready;
    hide Finishing;
    TrackedIsSafe(cfg, w, at.run, at.guard);
    OneStride(cfg, w, at, at0);
    StrideTracks(cfg, w, at, at0);
  }

  /** Stride by stride the gated project, resumed after every pause, does what the straight one
      does; it is at most the one stride behind that passes the gate before synthesis. */
  lemma {:induction false} InStep(cfg: Settings, w: World, at: Point, at0: Point, n: nat)
    requires SafeWay(cfg, w) && Uninterrupted(w) && cfg.maxIterations <= 100
    requires Matched(cfg, at, at0) && OnTrack(cfg, w, at.run)
    ensures var r := After(cfg, w, at, n).run;
      && r.p.gatePending == None
      && (|| Same(r, After(Straight(cfg), Unasked(w), at0, n).run)
          || (n > 0 && Same(r, After(Straight(cfg), Unasked(w), at0, n - 1).run)))
    decreases n
  {
    assert at.run.p.gatePending == None && Same(at.run, at0.run);
    hide OnTrack;
    hide SafeWay;
    hide Stride;
    hide Matched;
    hide Finishing;
    hide Same;
    AfterUnfolds(cfg, w, at, n);
    AfterUnfolds(Straight(cfg), Unasked(w), at0, n);
    if n > 1 {
      AfterUnfolds(Straight(cfg), Unasked(w), at0, n - 1);
    }
    hide After;
    if n > 0 {
      OneStrideOn(cfg, w, at, at0);
      var next, next0 := Stride(cfg, w, at), Stride(Straight(cfg), Unasked(w), at0);
      if Matched(cfg, next, next0) {
        InStep(cfg, w, next, next0, n - 1);
      } else {
        FinishingInStep(cfg, w, next, at0, n - 1);
      }
    }
  }

  /** Strides a straight run takes at most until it completes. */
  function Remaining(maxIterations: nat, r: Run): nat {
    var loop := RunSafety.PassesLeft(maxIterations, Searching, 1);
    match r.p.state
    case Created => loop + 4
    case Clarifying => loop + 3
    case Planned => loop + 2
    case Searching => RunSafety.PassesLeft(maxIterations, r.p.state, r.p.currentIteration) + 1
    case AnalyzingGaps => RunSafety.PassesLeft(maxIterations, r.p.state, r.p.currentIteration) + 1
    case Converged => 1
    case _ => 0
  }

  lemma StraightAdvances(cfg: Settings, w: World, at: Point)
    requires Uninterrupted(w) && cfg.maxIterations <= 100 && Ready(Straight(cfg), at.run, at.guard)
    ensures var next := Stride(Straight(cfg), Unasked(w), at);
      if at.run.p.state == Completed then next == at
      else Remaining(cfg.maxIterations, next.run) < Remaining(cfg.maxIterations, at.run)
  {
    var r := at.run;
    if r.p.state in {Searching, AnalyzingGaps} {
      RunSafety.PassCounts(Straight(cfg), Unasked(w), r, at.guard);
      StraightStaysReady(cfg, w, at);
      hide LoopPass;
    }
    hide Legal;
  }

  lemma {:induction false} StraightCompletes(cfg: Settings, w: World, at: Point, n: nat)
    requires Uninterrupted(w) && cfg.maxIterations <= 100 && Ready(Straight(cfg), at.run, at.guard)
    requires Remaining(cfg.maxIterations, at.run) <= n
    ensures var end := After(Straight(cfg), Unasked(w), at, n);
      end.run.p.state == Completed && After(Straight(cfg), Unasked(w), at, n + 1) == end
    decreases n
  {
    StraightAdvances(cfg, w, at);
    StraightStaysReady(cfg, w, at);
    var next := Stride(Straight(cfg), Unasked(w), at);
    hide Stride;
    if n > 0 {
      StraightCompletes(cfg, w, next, n - 1);
    }
  }

  /** Strides that complete any run of at most the given number of iterations. */
  function Enough(maxIterations: nat): nat {
    Remaining(maxIterations, NEW_PROJECT) + 1
  }

  lemma GatedCompletes(cfg: Settings, w: World)
    requires SafeWay(cfg, w) && Uninterrupted(w) && cfg.maxIterations <= 100
    ensures var n := Enough(cfg.maxIterations);
      var r, r0 := After(cfg, w, BEGINNING, n).run, After(Straight(cfg), Unasked(w), BEGINNING, n).run;
      Same(r, r0) && r.p.state == Completed && r.p.gatePending == None
  {
    var n := Enough(cfg.maxIterations) - 1;
    StraightCompletes(cfg, w, BEGINNING, n);
    InStep(cfg, w, BEGINNING, BEGINNING, n + 1);
    hide After;
  }

  // ------------------------------------------------------------------ calls of run and resume

  /** A loop pass never goes back before the loop. */
  lemma PassStaysInLoop(cfg: Settings, w: World, r: Run, guard: nat)
    requires Looping(r.p.state) && r.p.state !in {Created, Clarifying, Planned}
    ensures match LoopPass(cfg, w, r, guard)
      case Go(r1, _) => r1.p.state !in {Created, Clarifying, Planned}
      case Rest(r1) => r1.p.state !in {Created, Clarifying, Planned, Converged}
      case Tripped(r1) => true
  {
    hide DeclaredPause;
    hide Legal;
  }

  /** A call of the runner goes on turn by turn until the project rests. */
  lemma RunUnfolds(cfg: Settings, w: World, r: Run, guard: nat)
    ensures RunToRest(cfg, w, r, guard) ==
      match Next(cfg, w, r, guard)
      case Go(r1, guard1) => if r1.p.state == Paused then Ended(r1, false) else RunToRest(cfg, w, r1, guard1)
      case Rest(r1) => Ended(r1, false)
      case Tripped(r1) => Ended(r1, true)
  {
    if Looping(r.p.state) && r.p.state !in {Created, Clarifying, Planned} {
      PassStaysInLoop(cfg, w, r, guard);
      hide LoopPass;
      match LoopPass(cfg, w, r, guard)
      case Go(r1, guard1) => assert RunLoop(cfg, w, r, guard) == RunLoop(cfg, w, r1, guard1);
      case _ =>
    } else if r.p.state == Converged {
      assert RunToRest(cfg, w, r, guard) == Ended(Synthesise(cfg, r), false);
    }
    hide DeclaredPause;
    hide Legal;
  }

  /** A project resumed a number of times. */
  function ResumedTimes(cfg: Settings, w: World, r: Run, k: nat): Run
    decreases k
  {
    if k == 0 then r else ResumedTimes(cfg, w, RunToRest(cfg, w, Resumed(r), 0).run, k - 1)
  }

  lemma CompletedRests(cfg: Settings, w: World, r: Run, guard: nat)
    requires r.p.state == Completed && r.p.gatePending == None
    ensures RunToRest(cfg, w, r, guard) == Ended(r, false) && Resumed(r) == r
  {
  }

  lemma {:induction false} CompletedForGood(cfg: Settings, w: World, r: Run, k: nat)
    requires r.p.state == Completed && r.p.gatePending == None
    ensures ResumedTimes(cfg, w, r, k) == r
    decreases k
  {
    CompletedRests(cfg, w, r, 0);
    if k > 0 {
      CompletedForGood(cfg, w, r, k - 1);
    }
  }

  lemma {:induction false} CompletedStays(cfg: Settings, w: World, at: Point, n: nat)
    requires at.run.p.state == Completed
    ensures After(cfg, w, at, n) == at
    decreases n
  {
    if n > 0 {
      CompletedStays(cfg, w, at, n - 1);
    }
  }

  /** The project after one call of run, taken up at the given point, and k resumes. */
  function AfterCalls(cfg: Settings, w: World, at: Point, k: nat): Run {
    ResumedTimes(cfg, w, RunToRest(cfg, w, at.run, at.guard).run, k)
  }

  lemma StuckUninterrupted(cfg: Settings, w: World, at: Point)
    requires Uninterrupted(w)
    ensures match Next(cfg, w, at.run, at.guard)
      case Go(_, _) => true
      case Rest(r) => r == at.run
      case Tripped(r) => RunToRest(cfg, w, r, at.guard).run == r
  {
    hide DeclaredPause;
  }

  /** A call takes the project through its next stride, or is used up by it. */
  lemma CallTakesStride(cfg: Settings, w: World, at: Point, k: nat) returns (j: nat)
    requires Uninterrupted(w) && 1 <= k
    ensures k - 1 <= j <= k
    ensures AfterCalls(cfg, w, at, k) == AfterCalls(cfg, w, Stride(cfg, w, at), j)
  {
    RunUnfolds(cfg, w, at.run, at.guard);
    StuckUninterrupted(cfg, w, at);
    hide RunToRest;
    hide Resumed;
    hide Next;
    match Next(cfg, w, at.run, at.guard)
    case Go(r, _) => return if r.p.state == Paused then k - 1 else k;
    case _ => return k;
  }

  /** Calls of run and resume take a project through its strides: after enough calls it is where
      the remaining calls lead from the point its strides reach. */
  lemma {:induction false} CallsFollowStrides(cfg: Settings, w: World, at: Point, n: nat, k: nat) returns (j: nat)
    requires Uninterrupted(w) && n <= k
    ensures AfterCalls(cfg, w, at, k) == AfterCalls(cfg, w, After(cfg, w, at, n), j)
    decreases n
  {
    hide AfterCalls;
    hide Stride;
    j := k;
    if n > 0 {
      j := CallTakesStride(cfg, w, at, k);
      j := CallsFollowStrides(cfg, w, Stride(cfg, w, at), n - 1, j);
    }
  }

  /** A straight run completes in a single call. */
  lemma {:induction false} StraightInOneCall(cfg: Settings, w: World, at: Point, n: nat)
    requires Uninterrupted(w) && cfg.maxIterations <= 100 && Ready(Straight(cfg), at.run, at.guard)
    requires After(Straight(cfg), Unasked(w), at, n).run.p.state == Completed
    ensures RunToRest(Straight(cfg), Unasked(w), at.run, at.guard).run == After(Straight(cfg), Unasked(w), at, n).run
    decreases n
  {
    var cfg0, w0 := Straight(cfg), Unasked(w);
    hide RunToRest;
    hide Next;
    if at.run.p.state == Completed {
      CompletedStays(cfg0, w0, at, n);
      CompletedRests(cfg0, w0, at.run, at.guard);
    } else {
      hide Ready;
      RunUnfolds(cfg0, w0, at.run, at.guard);
      StraightStaysReady(cfg, w, at);
      StraightNeverPauses(cfg, w, at);
      StraightInOneCall(cfg, w, Stride(cfg0, w0, at), n - 1);
    }
  }

  /** A gated project, resumed often enough, completes with exactly the work, the stop reason and
      the iterations of the same project run straight through. */
  lemma GatesAreTransparent(cfg: Settings, w: World, k: nat)
    requires SafeWay(cfg, w) && Uninterrupted(w) && cfg.maxIterations <= 100
    requires Enough(cfg.maxIterations) <= k
    ensures var r, r0 := AfterCalls(cfg, w, BEGINNING, k), RunToRest(Straight(cfg), Unasked(w), NEW_PROJECT, 0).run;
      r.p.state == Completed && Same(r, r0)
  {
    var n := Enough(cfg.maxIterations);
    GatedCompletes(cfg, w);
    var j := CallsFollowStrides(cfg, w, BEGINNING, n, k);
    var end := After(cfg, w, BEGINNING, n);
    CompletedRests(cfg, w, end.run, end.guard);
    CompletedForGood(cfg, w, end.run, j);
    StraightInOneCall(cfg, w, BEGINNING, n);
    hide After;
    hide RunToRest;
    hide ResumedTimes;
  }
}
