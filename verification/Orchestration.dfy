/** The meaning of an orchestrated project run: which work is done, which gates pause it,
    and which state changes are requested. */
module Orchestration {
  import opened Options
  import opened ProjectStates
  import opened Manifests

  /** The work a project run consists of. */
  datatype Work =
    | Clarified | PlannedOut | Searched(iteration: nat) | Analysed(iteration: nat)
    | FollowedUp(iteration: nat) | Reported

  datatype Signal = NoSignal | StopSignal | PauseSignal

  /** Everything the orchestrator does not decide itself; it may depend on all work done so far. */
  datatype World = World(
    asks: seq<Work> -> bool,
    hasQueries: seq<Work> -> bool,
    findsFollowups: seq<Work> -> bool,
    decision: seq<Work> -> Option<StopReason>,
    signal: (seq<Work>, nat) -> Signal)

  datatype Settings = Settings(gatesEnabled: bool, maxIterations: nat, loop: Loop)

  /** A project with the work done, whether every move requested so far was legal,
      and the gates it paused on. */
  datatype Run = Run(p: View, work: seq<Work>, legal: bool, pausedOn: seq<string>)

  const PROBLEM_GATE := "AFTER_PROBLEM_DEFINITION"
  const PLAN_GATE := "AFTER_INITIAL_RESEARCH_PLAN"
  const CYCLE_GATE := "AFTER_FIRST_RESEARCH_CYCLE"
  const SYNTHESIS_GATE := "BEFORE_FINAL_SYNTHESIS"
  const WAITING_GATE := "WAITING_FOR_USER"

  const GUARD_LIMIT: nat := 200

  const NEW_PROJECT: Run := Run(FRESH, [], true, [])

  function To(r: Run, target: ProjectState): Run {
    r.(p := r.p.(state := target), legal := r.legal && Legal(r.p.state, target))
  }

  function Did(r: Run, work: Work): Run {
    r.(work := r.work + [work])
  }

  function Because(r: Run, reason: StopReason): Run {
    r.(p := r.p.(stopReason := Some(reason)))
  }

  function PauseOn(r: Run, gate: string): Run {
    To(r.(p := r.p.(gatePending := Some(gate)), pausedOn := r.pausedOn + [gate]), Paused)
  }

  /** A review gate holds the run when gates are on and it has not been approved. */
  predicate Holds(cfg: Settings, r: Run, gate: string) {
    cfg.gatesEnabled && gate !in r.p.approvedGates
  }

  /** The first declared pause after a step that is still waiting for its approval. */
  function DeclaredPause(steps: seq<StepSpec>, step: Step, approved: seq<string>): Option<string> {
    if steps == [] then None
    else if steps[0].step == step && steps[0].pauseAfter && steps[0].GateName() !in approved then Some(steps[0].GateName())
    else DeclaredPause(steps[1..], step, approved)
  }

  function PauseAfter(r: Run, steps: seq<StepSpec>, step: Step): Run {
    var gate := DeclaredPause(steps, step, r.p.approvedGates);
    if gate.Some? then PauseOn(r, gate.value) else r
  }

  function ClarifyProblem(cfg: Settings, w: World, r: Run): Run {
    var r1 := Did(To(r, Clarifying), Clarified);
    if w.asks(r1.work) then PauseOn(r1, WAITING_GATE)
    else if Holds(cfg, r1, PROBLEM_GATE) then PauseOn(r1, PROBLEM_GATE)
    else PauseAfter(r1, cfg.loop.setup, Clarify)
  }

  function MakePlan(cfg: Settings, r: Run): Run {
    var r1 := Did(r, PlannedOut);
    if Holds(cfg, r1, PLAN_GATE) then PauseOn(r1, PLAN_GATE)
    else PauseAfter(To(r1, Planned), cfg.loop.setup, Plan)
  }

  function BeginIteration(r: Run): Run {
    To(r.(p := r.p.(currentIteration := r.p.currentIteration + 1)), Searching)
  }

  /** One cycle of search, fetch and extraction, or convergence when nothing is left to search for. */
  function SearchCycle(w: World, r: Run): Run {
    var it := r.p.currentIteration;
    var r1 := if w.hasQueries(r.work) then r else Did(r, FollowedUp(it));
    if !w.hasQueries(r.work) && !w.findsFollowups(r1.work) then
      To(Because(r1, NoHighValueGaps), Converged)
    else
      To(To(To(To(Did(r1, Searched(it)), Fetching), Extracting), Verifying), AnalyzingGaps)
  }

  /** Follow-ups are generated and the next iteration begins. */
  function NextIteration(r: Run): Run {
    BeginIteration(Did(To(r, GeneratingFollowups), FollowedUp(r.p.currentIteration)))
  }

  function Analyse(cfg: Settings, w: World, r: Run): Run {
    var it := r.p.currentIteration;
    var r1 := Did(r, Analysed(it));
    var decision := w.decision(r1.work);
    if decision.Some? then
      var r2 := Because(r1, decision.value);
      if decision.value == SaturationReached || decision.value == NoHighValueGaps then To(r2, Converged)
      else To(To(r2, GeneratingFollowups), Converged)
    else if cfg.maxIterations <= it then
      To(Because(r1, StopReason.MaxIterations), Converged)
    else if it == 1 && Holds(cfg, r1, CYCLE_GATE) then
      PauseOn(r1, CYCLE_GATE)
    else
      PauseAfter(NextIteration(r1), cfg.loop.perIteration, EvaluateConvergence)
  }

  function Synthesise(cfg: Settings, r: Run): Run {
    if Holds(cfg, r, SYNTHESIS_GATE) then PauseOn(r, SYNTHESIS_GATE)
    else To(Did(To(r, Synthesizing), Reported), Completed)
  }

  /** A run goes on until its project rests; the loop guard may cut it short. */
  datatype Turn = Go(run: Run, guard: nat) | Rest(run: Run) | Tripped(run: Run)

  /** The run loop is left once the project has reached one of its resting states. */
  predicate Looping(state: ProjectState) {
    state !in {Converged, Paused, Failed, Cancelled, Completed}
  }

  /** States between the phases of a cycle: only a killed process leaves a project there, and nothing enters ITERATING. */
  predicate MidCycle(state: ProjectState) {
    state in {Fetching, Extracting, Verifying, GeneratingFollowups, Iterating, Synthesizing}
  }

  /** An illegal request raises; the project then counts as failed. */
  function Fatal(r: Run): Run {
    r.(p := r.p.(state := ProjectState.Failed, stopReason := Some(RunFailed)), legal := false)
  }

  /** A requested stop or pause, honoured between two phases. */
  function Interrupted(r: Run, target: ProjectState, guard: nat): Turn {
    if Legal(r.p.state, target) then Go(To(r, target), guard + 1) else Rest(Fatal(r))
  }

  /** One pass of the run loop: the guard, a stop or pause request, or a phase. */
  function LoopPass(cfg: Settings, w: World, r: Run, guard: nat): (t: Turn)
    ensures t.Go? ==> guard < GUARD_LIMIT && t.guard == guard + 1
  {
    if GUARD_LIMIT <= guard then
      Tripped(Because(r, RunFailed))
    else
      match w.signal(r.work, guard)
      case StopSignal => Interrupted(Because(r, UserStopped), Converged, guard)
      case PauseSignal => Interrupted(r, Paused, guard)
      case NoSignal =>
        if r.p.state == Searching then Go(SearchCycle(w, r), guard + 1)
        else if r.p.state == AnalyzingGaps then Go(Analyse(cfg, w, r), guard + 1)
        else Rest(r)
  }

  /** What a run does next, by the state the project is in; the guard counts loop passes. */
  function Next(cfg: Settings, w: World, r: Run, guard: nat): Turn {
    match r.p.state
    case Created => Go(ClarifyProblem(cfg, w, r), guard)
    case Clarifying => Go(MakePlan(cfg, r), guard)
    case Planned => Go(BeginIteration(r), guard)
    case Converged => Go(Synthesise(cfg, r), guard)
    case _ => if Looping(r.p.state) then LoopPass(cfg, w, r, guard) else Rest(r)
  }

  function Approve(gates: seq<string>, gate: Option<string>): seq<string> {
    if gate.Some? && gate.value != "" && gate.value !in gates then gates + [gate.value] else gates
  }

  /** Where a paused project is taken up again. */
  function TakeUp(r: Run, gate: Option<string>): Run {
    if gate == Some(PROBLEM_GATE) || gate == Some(WAITING_GATE) then To(r, Clarifying)
    else if gate == Some(PLAN_GATE) then To(r, Planned)
    else if gate == Some(CYCLE_GATE) then NextIteration(r)
    else if gate == Some(SYNTHESIS_GATE) then To(r, Converged)
    else if r.p.currentIteration == 0 then
      (if Clarified !in r.work || PlannedOut !in r.work then To(r, Clarifying) else To(r, Planned))
    else if r.p.stopReason.Some? then To(r, Converged)
    else To(r, Searching)
  }

  function Resumed(r: Run): Run {
    var gate := r.p.gatePending;
    var r1 := r.(p := r.p.(approvedGates := Approve(r.p.approvedGates, gate)));
    var r2 := if r1.p.state == Paused then TakeUp(r1, gate) else r1;
    r2.(p := r2.p.(gatePending := None))
  }

  datatype Ended = Ended(run: Run, tripped: bool)

  /** The run loop goes on until the project rests or a pass ends it. */
  function RunLoop(cfg: Settings, w: World, r: Run, guard: nat): Ended
    decreases if guard < GUARD_LIMIT then GUARD_LIMIT - guard else 0
  {
    if !Looping(r.p.state) then Ended(r, false)
    else
      match LoopPass(cfg, w, r, guard)
      case Go(r1, guard1) => RunLoop(cfg, w, r1, guard1)
      case Tripped(r1) => Ended(r1, true)
      case Rest(r1) => Ended(r1, false)
  }

  function BeforeLoop(cfg: Settings, w: World, r: Run): Run {
    var r1 := if r.p.state == Created then ClarifyProblem(cfg, w, r) else r;
    var r2 := if r1.p.state == Clarifying then MakePlan(cfg, r1) else r1;
    if r2.p.state == Planned then BeginIteration(r2) else r2
  }

  /** One call of the orchestrated runner. */
  function RunToRest(cfg: Settings, w: World, r: Run, guard: nat): Ended {
    var e := RunLoop(cfg, w, BeforeLoop(cfg, w, r), guard);
    if !e.tripped && e.run.p.state == Converged then Ended(Synthesise(cfg, e.run), false) else e
  }
}
