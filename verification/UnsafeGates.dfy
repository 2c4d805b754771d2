/** Declared gates with unsafe names do change the work a project performs: gates are transparent
    exactly when no project comes to a gate whose name resuming takes for another place. */
module UnsafeGates {
  import opened Options
  import opened ProjectStates
  import opened Manifests
  import opened Orchestration
  import opened GateTransparency
  import RunSafety

  /** Whatever the settings and the world, a project with this loop that is resumed often enough
      completes with the work of the same project run straight through. */
  ghost predicate Transparent(loop: Loop) {
    forall cfg: Settings, w, k | cfg.loop == loop && cfg.maxIterations <= 100 && Uninterrupted(w) && Enough(cfg.maxIterations) <= k
      :: Same(AfterCalls(cfg, w, BEGINNING, k), RunToRest(Straight(cfg), Unasked(w), NEW_PROJECT, 0).run)
  }

  /** With or without review gates and a question to the user, every declared pause that a project of up
      to 100 iterations comes to has a safe name. */
  predicate SafeGates(loop: Loop) {
    forall gates, asked :: SafeRun(loop, gates, asked, 100)
  }

  // ------------------------------------------------------------------ work is never undone

  lemma {:induction false} PrefixOf<T>(a: seq<T>, b: seq<T>, c: seq<T>)
    requires a <= b <= c
    ensures a <= c
  {
    assert c[..|a|] == b[..|a|];
  }

  lemma PauseAfterKeepsWork(r: Run, steps: seq<StepSpec>, step: Step)
    ensures PauseAfter(r, steps, step).work == r.work
  {
    hide DeclaredPause;
  }

  lemma PhasesGrow(cfg: Settings, w: World, r: Run)
    ensures r.work <= ClarifyProblem(cfg, w, r).work
    ensures r.work <= MakePlan(cfg, r).work
    ensures r.work <= BeginIteration(r).work
    ensures r.work <= SearchCycle(w, r).work
    ensures r.work <= Synthesise(cfg, r).work
  {
    PauseAfterKeepsWork(Did(To(r, Clarifying), Clarified), cfg.loop.setup, Clarify);
    PauseAfterKeepsWork(To(Did(r, PlannedOut), Planned), cfg.loop.setup, Plan);
    hide PauseAfter;
    hide Legal;
  }

  lemma AnalyseGrows(cfg: Settings, w: World, r: Run)
    ensures r.work <= Analyse(cfg, w, r).work
  {
    PauseAfterKeepsWork(NextIteration(Did(r, Analysed(r.p.currentIteration))), cfg.loop.perIteration, EvaluateConvergence);
    hide PauseAfter;
    hide Legal;
  }

  lemma TurnGrows(cfg: Settings, w: World, r: Run, guard: nat)
    ensures r.work <= RunSafety.Result(Next(cfg, w, r, guard)).work
  {
    PhasesGrow(cfg, w, r);
    AnalyseGrows(cfg, w, r);
    hide ClarifyProblem;
    hide MakePlan;
    hide SearchCycle;
    hide Analyse;
    hide Synthesise;
    hide Legal;
  }

  lemma ResumedGrows(r: Run)
    ensures r.work <= Resumed(r).work
  {
    hide Legal;
  }

  lemma StrideGrows(cfg: Settings, w: World, at: Point)
    ensures at.run.work <= Stride(cfg, w, at).run.work
  {
    TurnGrows(cfg, w, at.run, at.guard);
    hide Next;
    match Next(cfg, w, at.run, at.guard)
    case Go(r, _) =>
      ResumedGrows(r);
      PrefixOf(at.run.work, r.work, Resumed(r).work);
      hide Resumed;
    case _ =>
  }

  lemma {:induction false} StridesGrow(cfg: Settings, w: World, at: Point, n: nat, m: nat)
    requires n <= m
    ensures After(cfg, w, at, n).run.work <= After(cfg, w, at, m).run.work
    decreases m
  {
    hide Stride;
    if n > 0 {
      StridesGrow(cfg, w, Stride(cfg, w, at), n - 1, m - 1);
    } else if m > 0 {
      StrideGrows(cfg, w, at);
      StridesGrow(cfg, w, Stride(cfg, w, at), 0, m - 1);
      PrefixOf(at.run.work, Stride(cfg, w, at).run.work, After(cfg, w, at, m).run.work);
    }
  }

  lemma PassGrows(cfg: Settings, w: World, r: Run, guard: nat)
    ensures r.work <= RunSafety.Result(LoopPass(cfg, w, r, guard)).work
  {
    PhasesGrow(cfg, w, r);
    AnalyseGrows(cfg, w, r);
    hide SearchCycle;
    hide Analyse;
    hide Legal;
  }

  lemma {:induction false} LoopGrows(cfg: Settings, w: World, r: Run, guard: nat)
    ensures r.work <= RunLoop(cfg, w, r, guard).run.work
    decreases if guard < GUARD_LIMIT then GUARD_LIMIT - guard else 0
  {
    if Looping(r.p.state) {
      PassGrows(cfg, w, r, guard);
      hide LoopPass;
      match LoopPass(cfg, w, r, guard)
      case Go(r1, guard1) =>
        LoopGrows(cfg, w, r1, guard1);
        PrefixOf(r.work, r1.work, RunLoop(cfg, w, r1, guard1).run.work);
      case _ =>
    }
  }

  lemma BeforeLoopGrows(cfg: Settings, w: World, r: Run)
    ensures r.work <= BeforeLoop(cfg, w, r).work
  {
    var r1 := if r.p.state == Created then ClarifyProblem(cfg, w, r) else r;
    var r2 := if r1.p.state == Clarifying then MakePlan(cfg, r1) else r1;
    PhasesGrow(cfg, w, r);
    PhasesGrow(cfg, w, r1);
    PhasesGrow(cfg, w, r2);
    hide ClarifyProblem;
    hide MakePlan;
    PrefixOf(r.work, r1.work, r2.work);
    PrefixOf(r.work, r2.work, BeforeLoop(cfg, w, r).work);
  }

  lemma CallGrows(cfg: Settings, w: World, r: Run, guard: nat)
    ensures r.work <= RunToRest(cfg, w, r, guard).run.work
  {
    var r1 := BeforeLoop(cfg, w, r);
    var e := RunLoop(cfg, w, r1, guard);
    BeforeLoopGrows(cfg, w, r);
    LoopGrows(cfg, w, r1, guard);
    PhasesGrow(cfg, w, e.run);
    hide BeforeLoop;
    hide RunLoop;
    hide Synthesise;
    PrefixOf(r.work, r1.work, e.run.work);
    PrefixOf(r.work, e.run.work, RunToRest(cfg, w, r, guard).run.work);
  }

  lemma {:induction false} ResumesGrow(cfg: Settings, w: World, r: Run, k: nat)
    ensures r.work <= ResumedTimes(cfg, w, r, k).work
    decreases k
  {
    hide RunToRest;
    hide Resumed;
    if k > 0 {
      var r1 := RunToRest(cfg, w, Resumed(r), 0).run;
      ResumedGrows(r);
      CallGrows(cfg, w, Resumed(r), 0);
      ResumesGrow(cfg, w, r1, k - 1);
      PrefixOf(r.work, Resumed(r).work, r1.work);
      PrefixOf(r.work, r1.work, ResumedTimes(cfg, w, r1, k - 1).work);
    }
  }

  /** All work done along the strides is part of the work done by the calls. */
  lemma WorkIsKept(cfg: Settings, w: World, n: nat, k: nat)
    requires Uninterrupted(w) && n <= k
    ensures After(cfg, w, BEGINNING, n).run.work <= AfterCalls(cfg, w, BEGINNING, k).work
  {
    var end := After(cfg, w, BEGINNING, n);
    var j := CallsFollowStrides(cfg, w, BEGINNING, n, k);
    var r := RunToRest(cfg, w, end.run, end.guard).run;
    CallGrows(cfg, w, end.run, end.guard);
    ResumesGrow(cfg, w, r, j);
    hide RunToRest;
    hide After;
    hide ResumedTimes;
    PrefixOf(end.run.work, r.work, ResumedTimes(cfg, w, r, j).work);
  }

  // ------------------------------------------------------------------ the straight run

  /** A world that never runs out of findings, with or without a question to the user. */
  function Endless(asked: bool): World {
    RunSafety.ENDLESS.(asks := _ => asked)
  }

  function Trial(loop: Loop, gates: bool): Settings {
    Settings(gates, 100, loop)
  }

  lemma {:induction false} StridesAdd(cfg: Settings, w: World, at: Point, n: nat, m: nat)
    ensures After(cfg, w, After(cfg, w, at, n), m) == After(cfg, w, at, n + m)
    decreases n
  {
    hide Stride;
    if n > 0 {
      StridesAdd(cfg, w, Stride(cfg, w, at), n - 1, m);
    }
  }

  lemma FirstStrides(cfg: Settings, w: World, at: Point)
    ensures After(cfg, w, at, 1) == Stride(cfg, w, at)
    ensures After(cfg, w, at, 2) == Stride(cfg, w, Stride(cfg, w, at))
  {
    hide Stride;
  }

  lemma StartsHere(cfg: Settings, w: World, p: Point)
    ensures After(cfg, w, p, 0) == p
  {
  }

  /** A straight run goes on with the plan, the first search or the next one. */
  lemma StraightGoesOn(loop: Loop, gates: bool, asked: bool, p: Point)
    requires p.run.p.state in {Clarifying, Planned, Searching} && p.guard < GUARD_LIMIT
    ensures var q := After(Straight(Trial(loop, gates)), Unasked(Endless(asked)), p, 2);
      var work := match p.run.p.state
        case Clarifying => PlannedOut
        case Planned => Searched(p.run.p.currentIteration + 1)
        case _ => Searched(p.run.p.currentIteration);
      p.run.work + [work] <= q.run.work
  {
    var cfg, w := Straight(Trial(loop, gates)), Unasked(Endless(asked));
    hide Legal;
    var p1 := Stride(cfg, w, p);
    FirstStrides(cfg, w, p);
    hide After;
    if p.run.p.state == Clarifying {
      NothingDeclared(To(Did(p.run, PlannedOut), Planned), Plan);
      assert p1.run.work == p.run.work + [PlannedOut];
      StrideGrows(cfg, w, p1);
      PrefixOf(p.run.work + [PlannedOut], p1.run.work, Stride(cfg, w, p1).run.work);
    } else if p.run.p.state == Planned {
      assert p1 == Point(BeginIteration(p.run), p.guard);
      assert Stride(cfg, w, p1).run.work == p.run.work + [Searched(p.run.p.currentIteration + 1)];
    } else {
      assert p1.run.work == p.run.work + [Searched(p.run.p.currentIteration)];
      StrideGrows(cfg, w, p1);
      PrefixOf(p1.run.work, p1.run.work, Stride(cfg, w, p1).run.work);
    }
  }

  /** All work done along the strides of a straight run is part of the work of its one call. */
  lemma StraightKeeps(cfg: Settings, w: World, n: nat)
    requires Uninterrupted(w) && cfg.maxIterations <= 100
    ensures After(Straight(cfg), Unasked(w), BEGINNING, n).run.work <= RunToRest(Straight(cfg), Unasked(w), NEW_PROJECT, 0).run.work
  {
    var end := Enough(cfg.maxIterations);
    var last := if end < n then n else end;
    hide After;
    hide RunToRest;
    StraightCompletes(cfg, w, BEGINNING, last);
    StraightInOneCall(cfg, w, BEGINNING, last);
    StridesGrow(Straight(cfg), Unasked(w), BEGINNING, n, last);
  }

  // ------------------------------------------------------------------ what an unsafe name does

  /** The work a project turns to when it is resumed after a gate that resuming takes for another place. */
  function Diversion(gate: string, iteration: nat): Work {
    if gate == PROBLEM_GATE || gate == WAITING_GATE then PlannedOut
    else if gate == PLAN_GATE then Searched(iteration + 1)
    else if gate == CYCLE_GATE then FollowedUp(iteration)
    else Reported
  }

  predicate Reserved(gate: string) {
    gate == PROBLEM_GATE || gate == WAITING_GATE || gate == PLAN_GATE || gate == CYCLE_GATE || gate == SYNTHESIS_GATE
  }

  lemma TakenUpOn(r: Run, gate: string)
    requires r.p.state == Paused && r.p.gatePending == Some(gate) && Reserved(gate)
    ensures var r1 := Resumed(r);
      && gate in r1.p.approvedGates
      && match Diversion(gate, r.p.currentIteration)
         case PlannedOut => r1.p.state == Clarifying && r1.work == r.work
         case Searched(_) => r1.p.state == Planned && r1.work == r.work && r1.p.currentIteration == r.p.currentIteration
         case FollowedUp(it) => r1.work == r.work + [FollowedUp(it)]
         case Reported => r1.p.state == Converged && r1.work == r.work && gate == SYNTHESIS_GATE
         case _ => false
  {
    DistinctGates();
    hide Legal;
  }

  lemma DivertsToPlan(cfg: Settings, w: World, p: Point)
    requires p.run.p.state == Clarifying
    ensures p.run.work + [PlannedOut] <= Stride(cfg, w, p).run.work
  {
    PauseAfterKeepsWork(To(Did(p.run, PlannedOut), Planned), cfg.loop.setup, Plan);
    ResumedGrows(MakePlan(cfg, p.run));
    hide Legal;
    hide PauseAfter;
    hide Resumed;
  }

  lemma DivertsToSearch(cfg: Settings, asked: bool, p: Point)
    requires p.run.p.state == Planned && p.guard == 0
    ensures After(cfg, Endless(asked), p, 2).run.work == p.run.work + [Searched(p.run.p.currentIteration + 1)]
  {
    hide Legal;
    var q := Stride(cfg, Endless(asked), p);
    assert q.run.p.state == Searching && q.run.work == p.run.work && q.run.p.currentIteration == p.run.p.currentIteration + 1;
    FirstStrides(cfg, Endless(asked), p);
    hide After;
  }

  lemma DivertsToSynthesis(cfg: Settings, w: World, p: Point)
    requires p.run.p.state == Converged && SYNTHESIS_GATE in p.run.p.approvedGates
    ensures Stride(cfg, w, p).run.work == p.run.work + [Reported]
  {
    hide Legal;
  }

  lemma Diverts(cfg: Settings, asked: bool, r: Run, gate: string)
    requires r.p.state == Paused && r.p.gatePending == Some(gate) && Reserved(gate)
    ensures r.work + [Diversion(gate, r.p.currentIteration)] <= After(cfg, Endless(asked), Point(Resumed(r), 0), 2).run.work
  {
    hide After;
    hide Stride;
    hide Resumed;
    hide Reserved;
    var w := Endless(asked);
    var p := Point(Resumed(r), 0);
    TakenUpOn(r, gate);
    var work := Diversion(gate, r.p.currentIteration);
    hide Diversion;
    match work
    case PlannedOut =>
      DivertsToPlan(cfg, w, p);
      OneIsEnough(cfg, w, p, r.work + [work]);
    case Searched(_) => DivertsToSearch(cfg, asked, p);
    case FollowedUp(_) =>
      StridesGrow(cfg, w, p, 0, 2);
      StartsHere(cfg, w, p);
    case _ =>
      DivertsToSynthesis(cfg, w, p);
      OneIsEnough(cfg, w, p, r.work + [work]);
  }

  lemma OneIsEnough(cfg: Settings, w: World, p: Point, work: seq<Work>)
    requires work <= Stride(cfg, w, p).run.work
    ensures work <= After(cfg, w, p, 2).run.work
  {
    FirstStrides(cfg, w, p);
    StrideGrows(cfg, w, Stride(cfg, w, p));
    hide After;
    hide Stride;
    PrefixOf(work, Stride(cfg, w, p).run.work, After(cfg, w, p, 2).run.work);
  }

  lemma DifferAt<T>(a: seq<T>, x: T, y: T, a1: seq<T>, b1: seq<T>)
    requires a + [x] <= a1 && a + [y] <= b1 && x != y
    ensures a1 != b1
  {
    assert a1[|a|] == (a + [x])[|a|] == x && b1[|a|] == (a + [y])[|a|] == y;
  }

  /** One piece of work that a straight run does not do at that place is enough. */
  lemma Breaks(cfg: Settings, w: World, n: nat, n0: nat, work: seq<Work>, x: Work, y: Work)
    requires Uninterrupted(w) && cfg.maxIterations <= 100 && x != y
    requires work + [x] <= After(cfg, w, BEGINNING, n).run.work
    requires work + [y] <= After(Straight(cfg), Unasked(w), BEGINNING, n0).run.work
    ensures !Transparent(cfg.loop)
  {
    var k := if Enough(cfg.maxIterations) < n then n else Enough(cfg.maxIterations);
    hide After;
    hide RunToRest;
    hide AfterCalls;
    hide Enough;
    WorkIsKept(cfg, w, n, k);
    StraightKeeps(cfg, w, n0);
    var r, r0 := AfterCalls(cfg, w, BEGINNING, k), RunToRest(Straight(cfg), Unasked(w), NEW_PROJECT, 0).run;
    PrefixOf(work + [x], After(cfg, w, BEGINNING, n).run.work, r.work);
    PrefixOf(work + [y], After(Straight(cfg), Unasked(w), BEGINNING, n0).run.work, r0.work);
    DifferAt(work, x, y, r.work, r0.work);
    assert !Same(r, r0);
  }

  // ------------------------------------------------------------------ on the way to an unsafe name

  /** The gated and the straight run of a trial after the same number of strides, still in step. */
  predicate InStepAt(cfg: Settings, w: World, n: nat, state: ProjectState, it: nat) {
    var p, p0 := After(cfg, w, BEGINNING, n), After(Straight(cfg), Unasked(w), BEGINNING, n);
    Matched(cfg, p, p0) && OnTrack(cfg, w, p.run) && p.run.p.state == state && p.run.p.currentIteration == it
  }

  lemma {:induction false} OneFurther(cfg: Settings, w: World, at: Point, n: nat)
    ensures After(cfg, w, at, n + 1) == Stride(cfg, w, After(cfg, w, at, n))
    decreases n
  {
    hide Stride;
    if n > 0 {
      OneFurther(cfg, w, Stride(cfg, w, at), n - 1);
    }
  }

  lemma StillInStep(cfg: Settings, w: World, n: nat, state: ProjectState, it: nat)
    requires Uninterrupted(w) && cfg.maxIterations <= 100 && InStepAt(cfg, w, n, state, it)
    requires SafeHere(cfg, w, After(cfg, w, BEGINNING, n).run) && state != Converged
    ensures var p, p0 := After(cfg, w, BEGINNING, n + 1), After(Straight(cfg), Unasked(w), BEGINNING, n + 1);
      Matched(cfg, p, p0) && OnTrack(cfg, w, p.run)
    ensures var p0 := After(Straight(cfg), Unasked(w), BEGINNING, n);
      After(Straight(cfg), Unasked(w), BEGINNING, n + 1) == Stride(Straight(cfg), Unasked(w), p0)
      && p0.run.p.state == state && p0.run.p.currentIteration == it && Ready(Straight(cfg), p0.run, p0.guard)
  {
    var p, p0 := After(cfg, w, BEGINNING, n), After(Straight(cfg), Unasked(w), BEGINNING, n);
    OneFurther(cfg, w, BEGINNING, n);
    OneFurther(Straight(cfg), Unasked(w), BEGINNING, n);
    hide After;
    StrideMatches(cfg, w, p, p0);
    StrideTracks(cfg, w, p, p0);
    StraightStaysReady(cfg, w, p0);
    NotFinishing(cfg, w, p, p0);
    hide Stride;
    hide OnTrack;
    hide Ready;
  }

  /** Only from CONVERGED does a project pass its last gate. */
  lemma NotFinishing(cfg: Settings, w: World, p: Point, p0: Point)
    requires Matched(cfg, p, p0) && p.run.p.state != Converged
    requires StridesMatch(cfg, p, Stride(cfg, w, p), p0, Stride(Straight(cfg), Unasked(w), p0))
    ensures Same(Stride(cfg, w, p).run, Stride(Straight(cfg), Unasked(w), p0).run)
  {
    hide Stride;
    hide Ready;
  }

  /** Where the straight trial goes next. */
  function StateAfter(state: ProjectState): ProjectState {
    match state
    case Created => Clarifying
    case Clarifying => Planned
    case Planned => Searching
    case Searching => AnalyzingGaps
    case _ => Searching
  }

  function IterationAfter(state: ProjectState, it: nat): nat {
    if state.Planned? || state.AnalyzingGaps? then it + 1 else it
  }

  predicate Underway(state: ProjectState, it: nat) {
    state in {Created, Clarifying, Planned, Searching} || (state == AnalyzingGaps && it < 100)
  }

  lemma StraightStride(loop: Loop, gates: bool, asked: bool, p: Point)
    requires Underway(p.run.p.state, p.run.p.currentIteration) && p.guard < GUARD_LIMIT
    ensures var q := Stride(Straight(Trial(loop, gates)), Unasked(Endless(asked)), p);
      && q.run.p.state == StateAfter(p.run.p.state)
      && q.run.p.currentIteration == IterationAfter(p.run.p.state, p.run.p.currentIteration)
  {
    hide Legal;
    NothingDeclared(Did(To(p.run, Clarifying), Clarified), Clarify);
    NothingDeclared(To(Did(p.run, PlannedOut), Planned), Plan);
    NothingDeclared(NextIteration(Did(p.run, Analysed(p.run.p.currentIteration))), EvaluateConvergence);
    hide PauseAfter;
  }

  lemma ReadyGuards(cfg: Settings, r: Run, guard: nat)
    requires Ready(cfg, r, guard) && cfg.maxIterations <= 100 && r.p.state in {Created, Clarifying, Planned, Searching, AnalyzingGaps}
    ensures guard < GUARD_LIMIT
  {
  }

  lemma Forward(loop: Loop, gates: bool, asked: bool, n: nat, state: ProjectState, it: nat)
    requires InStepAt(Trial(loop, gates), Endless(asked), n, state, it) && Underway(state, it)
    requires SafeHere(Trial(loop, gates), Endless(asked), After(Trial(loop, gates), Endless(asked), BEGINNING, n).run)
    ensures InStepAt(Trial(loop, gates), Endless(asked), n + 1, StateAfter(state), IterationAfter(state, it))
  {
    var cfg, w := Trial(loop, gates), Endless(asked);
    StillInStep(cfg, w, n, state, it);
    var p0 := After(Straight(cfg), Unasked(w), BEGINNING, n);
    ReadyGuards(Straight(cfg), p0.run, p0.guard);
    StraightStride(loop, gates, asked, p0);
    hide After;
    hide Stride;
    hide Ready;
    hide OnTrack;
    hide SafeHere;
  }

  lemma Begins(loop: Loop, gates: bool, asked: bool)
    ensures InStepAt(Trial(loop, gates), Endless(asked), 0, Created, 0)
  {
  }

  /** Where a trial stands, a safe name is one thing: what its loop declares there. */
  lemma SafeHereMeans(loop: Loop, gates: bool, asked: bool, n: nat, state: ProjectState, it: nat)
    requires InStepAt(Trial(loop, gates), Endless(asked), n, state, it) && Underway(state, it)
    ensures SafeHere(Trial(loop, gates), Endless(asked), After(Trial(loop, gates), Endless(asked), BEGINNING, n).run) <==>
      match state
      case Created => SafeClarifying(loop, gates, asked)
      case Clarifying => SafePlanning(loop, gates, asked)
      case AnalyzingGaps => SafeIteration(loop, gates, asked, it)
      case _ => true
  {
    hide After;
    hide Matched;
    hide SafePause;
    hide AtIteration;
    hide AfterClarifying;
  }

  lemma SetupPassed(loop: Loop, gates: bool, asked: bool)
    requires SafeClarifying(loop, gates, asked) && SafePlanning(loop, gates, asked)
    ensures InStepAt(Trial(loop, gates), Endless(asked), 4, AnalyzingGaps, 1)
  {
    hide InStepAt;
    hide SafeHere;
    hide SafeClarifying;
    hide SafePlanning;
    hide After;
    Begins(loop, gates, asked);
    SafeHereMeans(loop, gates, asked, 0, Created, 0);
    Forward(loop, gates, asked, 0, Created, 0);
    SafeHereMeans(loop, gates, asked, 1, Clarifying, 0);
    Forward(loop, gates, asked, 1, Clarifying, 0);
    SafeHereMeans(loop, gates, asked, 2, Planned, 0);
    Forward(loop, gates, asked, 2, Planned, 0);
    SafeHereMeans(loop, gates, asked, 3, Searching, 1);
    Forward(loop, gates, asked, 3, Searching, 1);
  }

  lemma {:induction false} AnalysisReached(loop: Loop, gates: bool, asked: bool, it: nat)
    requires SafeClarifying(loop, gates, asked) && SafePlanning(loop, gates, asked) && 1 <= it < 100
    requires forall j: nat :: 1 <= j < it ==> SafeIteration(loop, gates, asked, j)
    ensures InStepAt(Trial(loop, gates), Endless(asked), 2 * it + 2, AnalyzingGaps, it)
  {
    hide InStepAt;
    hide SafeHere;
    hide SafeIteration;
    hide SafeClarifying;
    hide SafePlanning;
    hide After;
    if it == 1 {
      SetupPassed(loop, gates, asked);
    } else {
      var n := 2 * it;
      AnalysisReached(loop, gates, asked, it - 1);
      SafeHereMeans(loop, gates, asked, n, AnalyzingGaps, it - 1);
      Forward(loop, gates, asked, n, AnalyzingGaps, it - 1);
      SafeHereMeans(loop, gates, asked, n + 1, Searching, it);
      Forward(loop, gates, asked, n + 1, Searching, it);
    }
  }

  /** The step after which a project in the given state may be held by a declared pause. */
  function StepOf(state: ProjectState): Step {
    match state case Created => Clarify case Clarifying => Plan case _ => EvaluateConvergence
  }

  lemma UnsafeIsReserved(step: Step, gate: string)
    requires !SafeName(step, gate)
    ensures Reserved(gate)
  {
  }

  /** Paused on an unsafe name, with the work of the straight run done. */
  predicate Caught(step: Step, r: Run, r0: Run) {
    && r.p.state == Paused && r.p.gatePending.Some? && !SafeName(step, r.p.gatePending.value)
    && r.work == r0.work && r.p.currentIteration == r0.p.currentIteration
  }

  lemma PauseCatches(r: Run, steps: seq<StepSpec>, step: Step)
    requires !SafePause(steps, step, r.p.approvedGates)
    ensures var r1 := PauseAfter(r, steps, step);
      && r1.p.state == Paused && r1.p.gatePending.Some? && !SafeName(step, r1.p.gatePending.value)
      && r1.work == r.work && r1.p.currentIteration == r.p.currentIteration
  {
    hide DeclaredPause;
    hide Legal;
  }

  lemma SetupCatches(cfg: Settings, w: World, r: Run, r0: Run)
    requires Ready(cfg, r, 0) && Same(r, r0) && !SafeHere(cfg, w, r)
    ensures r.p.state == Created ==> Caught(Clarify, ClarifyProblem(cfg, w, r), ClarifyProblem(Straight(cfg), Unasked(w), r0))
    ensures r.p.state == Clarifying ==> Caught(Plan, MakePlan(cfg, r), MakePlan(Straight(cfg), r0))
  {
    if r.p.state == Created {
      assert Did(To(r, Clarifying), Clarified).work == [Clarified];
      PauseCatches(Did(To(r, Clarifying), Clarified), cfg.loop.setup, Clarify);
      NothingDeclared(Did(To(r0, Clarifying), Clarified), Clarify);
    } else if r.p.state == Clarifying {
      PauseCatches(To(Did(r, PlannedOut), Planned), cfg.loop.setup, Plan);
      NothingDeclared(To(Did(r0, PlannedOut), Planned), Plan);
    }
    hide PauseAfter;
    hide SafePause;
    hide Legal;
  }

  lemma AnalysisCatches(cfg: Settings, w: World, r: Run, r0: Run)
    requires r.p.state == AnalyzingGaps && Same(r, r0) && !SafeHere(cfg, w, r) && w.decision == RunSafety.ENDLESS.decision
    ensures Caught(EvaluateConvergence, Analyse(cfg, w, r), Analyse(Straight(cfg), Unasked(w), r0))
  {
    PauseCatches(NextIteration(Did(r, Analysed(r.p.currentIteration))), cfg.loop.perIteration, EvaluateConvergence);
    NothingDeclared(NextIteration(Did(r0, Analysed(r0.p.currentIteration))), EvaluateConvergence);
    hide PauseAfter;
    hide SafePause;
    hide Legal;
  }

  /** A project that comes to an unsafe name pauses on it with the work of the straight run done. */
  lemma Trapped(cfg: Settings, w: World, p: Point, p0: Point) returns (r: Run)
    requires Matched(cfg, p, p0) && !SafeHere(cfg, w, p.run) && Uninterrupted(w) && cfg.maxIterations <= 100
    requires w.decision == RunSafety.ENDLESS.decision
    ensures p.run.p.state in {Created, Clarifying, AnalyzingGaps}
    ensures Caught(StepOf(p.run.p.state), r, Stride(Straight(cfg), Unasked(w), p0).run)
    ensures Stride(cfg, w, p) == Point(Resumed(r), 0)
  {
    ReadyGuards(cfg, p.run, p.guard);
    ReadyGuards(Straight(cfg), p0.run, p0.guard);
    StraightNeverPauses(cfg, w, p0);
    if p.run.p.state == AnalyzingGaps {
      AnalysisCatches(cfg, w, p.run, p0.run);
      r := Analyse(cfg, w, p.run);
    } else {
      SetupCatches(cfg, w, p.run, p0.run);
      r := if p.run.p.state == Created then ClarifyProblem(cfg, w, p.run) else MakePlan(cfg, p.run);
    }
    hide Analyse;
    hide ClarifyProblem;
    hide MakePlan;
    hide SafeName;
    hide Resumed;
  }

  /** What the straight trial does where an unsafe name diverts the gated one. */
  function Expected(state: ProjectState, it: nat): Work {
    match state case Created => PlannedOut case Clarifying => Searched(it + 1) case _ => Searched(it)
  }

  lemma DiversionDiffers(state: ProjectState, gate: string, it: nat)
    requires !SafeName(StepOf(state), gate) && state in {Created, Clarifying, AnalyzingGaps}
    ensures Diversion(gate, it) != Expected(state, it)
  {
    DistinctGates();
  }

  lemma StridesOn(cfg: Settings, w: World, n: nat)
    ensures After(cfg, w, BEGINNING, n + 3) == After(cfg, w, Stride(cfg, w, After(cfg, w, BEGINNING, n)), 2)
  {
    OneFurther(cfg, w, BEGINNING, n);
    StridesAdd(cfg, w, BEGINNING, n + 1, 2);
    hide After;
    hide Stride;
  }

  /** Behind the trap the straight trial does what is expected there. */
  lemma StraightBehind(loop: Loop, gates: bool, asked: bool, p0: Point)
    requires Underway(p0.run.p.state, p0.run.p.currentIteration) && p0.run.p.state in {Created, Clarifying, AnalyzingGaps}
    requires Ready(Straight(Trial(loop, gates)), p0.run, p0.guard)
    ensures var cfg0, w0 := Straight(Trial(loop, gates)), Unasked(Endless(asked));
      var q0 := Stride(cfg0, w0, p0);
      q0.run.work + [Expected(p0.run.p.state, q0.run.p.currentIteration)] <= After(cfg0, w0, q0, 2).run.work
  {
    var cfg, w := Trial(loop, gates), Endless(asked);
    ReadyGuards(Straight(cfg), p0.run, p0.guard);
    StraightStride(loop, gates, asked, p0);
    StraightStaysReady(cfg, w, p0);
    var q0 := Stride(Straight(cfg), Unasked(w), p0);
    hide Stride;
    hide After;
    ReadyGuards(Straight(cfg), q0.run, q0.guard);
    hide Ready;
    StraightGoesOn(loop, gates, asked, q0);
  }

  lemma TrapSprings(loop: Loop, gates: bool, asked: bool, n: nat, state: ProjectState, it: nat)
    requires InStepAt(Trial(loop, gates), Endless(asked), n, state, it) && Underway(state, it)
    requires !SafeHere(Trial(loop, gates), Endless(asked), After(Trial(loop, gates), Endless(asked), BEGINNING, n).run)
    ensures !Transparent(loop)
  {
    hide SafeHere;
    hide OnTrack;
    hide Stride;
    hide After;
    hide Resumed;
    hide Diversion;
    hide Expected;
    hide SafeName;
    hide Transparent;
    hide Ready;
    var cfg, w := Trial(loop, gates), Endless(asked);
    var p, p0 := After(cfg, w, BEGINNING, n), After(Straight(cfg), Unasked(w), BEGINNING, n);
    var r := Trapped(cfg, w, p, p0);
    var gate := r.p.gatePending.value;
    UnsafeIsReserved(StepOf(state), gate);
    DiversionDiffers(state, gate, r.p.currentIteration);
    Diverts(cfg, asked, r, gate);
    StridesOn(cfg, w, n);
    StraightBehind(loop, gates, asked, p0);
    StridesOn(Straight(cfg), Unasked(w), n);
    Breaks(cfg, w, n + 3, n + 3, r.work, Diversion(gate, r.p.currentIteration), Expected(state, r.p.currentIteration));
  }

  lemma {:induction false} FirstUnsafe(loop: Loop, gates: bool, asked: bool, it: nat) returns (first: nat)
    requires 1 <= it && !SafeIteration(loop, gates, asked, it)
    ensures 1 <= first <= it && !SafeIteration(loop, gates, asked, first)
    ensures forall j: nat :: 1 <= j < first ==> SafeIteration(loop, gates, asked, j)
  {
    hide SafeIteration;
    if j: nat :| 1 <= j < it && !SafeIteration(loop, gates, asked, j) {
      first := FirstUnsafe(loop, gates, asked, j);
    } else {
      first := it;
    }
  }

  lemma SetupTrap(loop: Loop, gates: bool, asked: bool)
    requires !SafeClarifying(loop, gates, asked) || !SafePlanning(loop, gates, asked)
    ensures !Transparent(loop)
  {
    hide InStepAt;
    hide SafeHere;
    hide After;
    hide Transparent;
    hide SafeClarifying;
    hide SafePlanning;
    Begins(loop, gates, asked);
    SafeHereMeans(loop, gates, asked, 0, Created, 0);
    if !SafeClarifying(loop, gates, asked) {
      TrapSprings(loop, gates, asked, 0, Created, 0);
    } else {
      Forward(loop, gates, asked, 0, Created, 0);
      SafeHereMeans(loop, gates, asked, 1, Clarifying, 0);
      TrapSprings(loop, gates, asked, 1, Clarifying, 0);
    }
  }

  lemma IterationTrap(loop: Loop, gates: bool, asked: bool, j: nat)
    requires SafeClarifying(loop, gates, asked) && SafePlanning(loop, gates, asked)
    requires 1 <= j < 100 && !SafeIteration(loop, gates, asked, j)
    ensures !Transparent(loop)
  {
    hide InStepAt;
    hide SafeHere;
    hide After;
    hide Transparent;
    hide SafeClarifying;
    hide SafePlanning;
    hide SafeIteration;
    var it := FirstUnsafe(loop, gates, asked, j);
    AnalysisReached(loop, gates, asked, it);
    SafeHereMeans(loop, gates, asked, 2 * it + 2, AnalyzingGaps, it);
    TrapSprings(loop, gates, asked, 2 * it + 2, AnalyzingGaps, it);
  }

  /** Every unsafe name that a project comes to makes some project do other work than without gates. */
  lemma UnsafeBreaks(loop: Loop)
    requires !SafeGates(loop)
    ensures !Transparent(loop)
  {
    hide Transparent;
    hide SafeClarifying;
    hide SafePlanning;
    hide SafeIteration;
    var gates, asked :| !SafeRun(loop, gates, asked, 100);
    if !SafeClarifying(loop, gates, asked) || !SafePlanning(loop, gates, asked) {
      SetupTrap(loop, gates, asked);
    } else {
      var j: nat :| 1 <= j < 100 && !SafeIteration(loop, gates, asked, j);
      IterationTrap(loop, gates, asked, j);
    }
  }

  /** Gates never change what a project does exactly when no project comes to a declared gate whose name
      resuming takes for another place, given the gates it has approved on its way. */
  lemma TransparentExactlyWhen(loop: Loop)
    ensures Transparent(loop) <==> SafeGates(loop)
  {
    if SafeGates(loop) {
      forall cfg: Settings, w, k | cfg.loop == loop && cfg.maxIterations <= 100 && Uninterrupted(w) && Enough(cfg.maxIterations) <= k
        ensures Same(AfterCalls(cfg, w, BEGINNING, k), RunToRest(Straight(cfg), Unasked(w), NEW_PROJECT, 0).run)
      {
        SafeForShorter(loop, cfg.gatesEnabled, w.asks([Clarified]), cfg.maxIterations);
        GatesAreTransparent(cfg, w, k);
      }
    } else {
      UnsafeBreaks(loop);
    }
  }

  lemma SafeForShorter(loop: Loop, gates: bool, asked: bool, maxIterations: nat)
    requires SafeGates(loop) && maxIterations <= 100
    ensures SafeRun(loop, gates, asked, maxIterations)
  {
    assert SafeRun(loop, gates, asked, 100);
    hide SafeClarifying;
    hide SafePlanning;
    hide SafeIteration;
  }

  // ------------------------------------------------------------------ names that are always safe

  /** Every declared gate of the list has a name that is safe after its step. */
  predicate SafeNames(steps: seq<StepSpec>, step: Step) {
    forall i :: 0 <= i < |steps| && steps[i].pauseAfter && steps[i].step == step ==> SafeName(step, steps[i].GateName())
  }

  lemma {:induction false} SafeNamesPause(steps: seq<StepSpec>, step: Step, approved: seq<string>)
    requires SafeNames(steps, step)
    ensures SafePause(steps, step, approved)
  {
    if steps != [] {
      SafeNamesPause(steps[1..], step, approved);
    }
  }

  /** Whoever keeps the reserved names out of declared gates need not follow any run. */
  lemma SafeNamesSuffice(loop: Loop)
    requires SafeNames(loop.setup, Clarify) && SafeNames(loop.setup, Plan) && SafeNames(loop.perIteration, EvaluateConvergence)
    ensures SafeGates(loop)
  {
    forall gates, asked ensures SafeRun(loop, gates, asked, 100) {
      SafeNamesPause(loop.setup, Clarify, []);
      SafeNamesPause(loop.setup, Plan, AfterClarifying(loop, gates, asked));
      forall it: nat | 1 <= it < 100 ensures SafeIteration(loop, gates, asked, it) {
        SafeNamesPause(loop.perIteration, EvaluateConvergence, AtIteration(loop, gates, asked, it));
      }
    }
    hide SafePause;
    hide SafeNames;
    hide AtIteration;
  }
}
