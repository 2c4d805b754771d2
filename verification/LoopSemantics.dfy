/** The meaning of a declared loop: which steps one run executes and where it stops.
    Step handlers are an arbitrary environment that sees everything executed so far. */
module LoopSemantics {
  import opened Options
  import opened ProjectStates
  import opened Manifests

  /** One visit to a declared step. */
  datatype Position = Position(phase: Phase, index: nat, iteration: nat)

  /** What a step handler did to the project before it returned or raised: the state it left,
      a stop reason or a pending gate it may have set, and whether it returned False. */
  datatype Effect = Effect(
    raised: bool,
    refused: bool,
    state: ProjectState,
    stopReason: Option<StopReason>,
    gatePending: Option<string>)

  /** The registered handlers and the metrics provider. */
  datatype Environment = Environment(
    handles: Step -> bool,
    handle: (seq<Position>, ProjectState) -> Effect,
    metrics: (seq<Position>, nat) -> Option<Metrics>)

  datatype Config = Config(project: View, journal: seq<Position>)

  /** A run finishes, yields at a pause, or raises. */
  datatype Ending = Finished | Yielded | Raised

  datatype Outcome = Outcome(ending: Ending, config: Config)

  datatype Signal = Proceed | Refuse | Fail

  datatype Handled = Handled(signal: Signal, config: Config)

  function Saved(c: Config, phase: Phase, index: nat, iteration: nat, pending: bool, gate: Option<string>): Config {
    c.(project := c.project.(cursor := At(phase, index, iteration, pending, gate)))
  }

  /** The cursor is saved first, then the step counts as visited. */
  function Visited(c: Config, pos: Position): Config {
    Saved(c, pos.phase, pos.index, pos.iteration, false, None).(journal := c.journal + [pos])
  }

  function CallHandler(env: Environment, step: Step, c: Config): Handled {
    if !env.handles(step) then
      Handled(Proceed, c)
    else
      var e := env.handle(c.journal, c.project.state);
      var p := c.project.(
        state := e.state,
        stopReason := if e.stopReason.Some? then e.stopReason else c.project.stopReason,
        gatePending := if e.gatePending.Some? then e.gatePending else c.project.gatePending);
      Handled(if e.raised then Fail else if e.refused then Refuse else Proceed, c.(project := p))
  }

  /** Handler-made pauses are saved with the gate the handler left pending. */
  function Halted(c: Config, pos: Position): Config {
    Saved(c, pos.phase, pos.index, pos.iteration, true, c.project.gatePending)
  }

  /** A declared pause: the gate is set before the move to Paused is attempted. */
  function PausedAt(c: Config, pos: Position, spec: StepSpec): Outcome {
    var c1 := c.(project := c.project.(gatePending := Some(spec.GateName())));
    if Legal(c1.project.state, Paused) then
      Outcome(Yielded, Saved(c1.(project := Moved(c1.project, Paused)), pos.phase, pos.index, pos.iteration, true, Some(spec.GateName())))
    else
      Outcome(Raised, c1)
  }

  predicate StopWhenFires(m: Loop, env: Environment, c: Config, iteration: nat) {
    var metrics := env.metrics(c.journal, iteration);
    metrics.Some? && AnyFires(m.stopWhen, metrics.value, iteration)
  }

  function Max(a: nat, b: nat): nat { if a < b then b else a }

  /** The control point of a run: the next step to look at, and the iteration it belongs to. */
  datatype Control = Control(phase: Phase, index: nat, iteration: nat) {
    /** Setup visits are filed under iteration 0. */
    function Here(): Position {
      Position(phase, index, if phase == Setup then 0 else iteration)
    }
  }

  datatype Turn = Halt(run: Outcome) | Go(at: Control, config: Config)

  function Rank(phase: Phase): nat {
    match phase case Setup => 3 case PerIteration => 2 case Synthesis => 1 case Done => 0
  }

  function Left(n: int, k: int): nat { if k < n then n - k else 0 }

  /** Control points only ever move forward. */
  predicate Before(m: Loop, maxIterations: nat, k: Control, k1: Control) {
    var left, left1 := Left(maxIterations + 1, k.iteration), Left(maxIterations + 1, k1.iteration);
    || Rank(k1.phase) < Rank(k.phase)
    || (k1.phase == k.phase && left1 < left)
    || (k1.phase == k.phase && left1 == left && Left(|m.Steps(k.phase)|, k1.index) < Left(|m.Steps(k.phase)|, k.index))
  }

  /** Visiting a declared step: run its handler, then honour the pauses and the convergence signal. */
  function VisitStep(m: Loop, env: Environment, k: Control, c: Config): Turn
    requires k.index < |m.Steps(k.phase)|
  {
    var spec := m.Steps(k.phase)[k.index];
    var h := CallHandler(env, spec.step, Visited(c, k.Here()));
    if h.signal == Fail then
      Halt(Outcome(Raised, h.config))
    else if env.handles(spec.step) && (h.config.project.state == Paused || (h.signal == Refuse && k.phase != PerIteration)) then
      Halt(Outcome(Yielded, Halted(h.config, k.Here())))
    else if spec.pauseAfter then
      Halt(PausedAt(h.config, k.Here(), spec))
    else if h.signal == Refuse && spec.step == EvaluateConvergence then
      Go(Control(Synthesis, 0, k.iteration), h.config)
    else
      Go(k.(index := k.index + 1), h.config)
  }

  /** Leaving the iterations moves the project to Converged, which may be illegal. */
  function LeaveIterations(k: Control, c: Config, reason: StopReason): Turn {
    var c1 := c.(project := c.project.(stopReason := Or(c.project.stopReason, reason)));
    if Legal(c1.project.state, Converged) then
      Go(Control(Synthesis, 0, k.iteration), c1.(project := Moved(c1.project, Converged)))
    else
      Halt(Outcome(Raised, c1))
  }

  function OnIteration(c: Config, iteration: nat): Config {
    c.(project := c.project.(currentIteration := iteration))
  }

  /** What one control point leads to. */
  function Next(m: Loop, env: Environment, maxIterations: nat, k: Control, c: Config): (t: Turn)
    ensures t.Go? ==> Before(m, maxIterations, k, t.at)
  {
    if k.phase == PerIteration && maxIterations < k.iteration then
      Go(Control(Synthesis, 0, k.iteration), c)
    else if k.index < |m.Steps(k.phase)| then
      VisitStep(m, env, k, c)
    else
      match k.phase
      case Setup =>
        Go(Control(PerIteration, 0, k.iteration), OnIteration(c, k.iteration))
      case PerIteration =>
        if StopWhenFires(m, env, c, k.iteration) then
          LeaveIterations(k, c, SaturationReached)
        else if c.project.state == Converged then
          Go(Control(Synthesis, 0, k.iteration), c)
        else if maxIterations <= k.iteration then
          LeaveIterations(k, c, StopReason.MaxIterations)
        else
          Go(Control(PerIteration, 0, k.iteration + 1), OnIteration(c, k.iteration + 1))
      case Synthesis | Done =>
        Halt(Outcome(Finished, Saved(c, Done, 0, c.project.currentIteration, false, None)))
  }

  /** Everything a run does from a control point on. */
  function Exec(m: Loop, env: Environment, maxIterations: nat, k: Control, c: Config): Outcome
    decreases Rank(k.phase), Left(maxIterations + 1, k.iteration), Left(|m.Steps(k.phase)|, k.index)
  {
    match Next(m, env, maxIterations, k, c)
    case Halt(r) => r
    case Go(k1, c1) => Exec(m, env, maxIterations, k1, c1)
  }

  /** The control point a run starts from. */
  function Start(p: View): Control {
    match p.cursor
    case NoCursor => Control(Setup, 0, Max(1, p.currentIteration))
    case At(Setup, i, it, _, _) => Control(Setup, i, Max(1, it))
    case At(PerIteration, i, it, _, _) => Control(PerIteration, i, Max(1, it))
    case At(Synthesis, i, _, _, _) => Control(Synthesis, i, p.currentIteration)
    case At(Done, _, _, _, _) => Control(Done, 0, p.currentIteration)
  }

  /** A run entered in the middle of the iterations sets the project's own counter. */
  function Entered(c: Config): Config {
    var k := Start(c.project);
    if k.phase == PerIteration then OnIteration(c, k.iteration) else c
  }

  /** One call of the runner. */
  function RunOnce(m: Loop, env: Environment, maxIterations: nat, c: Config): Outcome {
    Exec(m, env, maxIterations, Start(c.project), Entered(c))
  }

  function Approved(gates: seq<string>, gate: Option<string>): seq<string> {
    if gate.Some? && gate.value != "" && gate.value !in gates then gates + [gate.value] else gates
  }

  function ResumeTarget(m: Loop, phase: Phase, index: nat): ProjectState {
    if index < |m.Steps(phase)| then TargetState(m.Steps(phase)[index].step)
    else if phase == Synthesis then Converged
    else Searching
  }

  /** Resuming approves the gate and moves the cursor past the paused step. */
  function Resumed(m: Loop, c: Config): Config {
    var p := c.project;
    if p.cursor.NoCursor? || !p.cursor.pendingPause then
      c
    else
      var cur := p.cursor;
      var gate := if cur.gate.Some? && cur.gate.value != "" then cur.gate else p.gatePending;
      var p1 := p.(approvedGates := Approved(p.approvedGates, gate), gatePending := None);
      var p2 := if p1.state == Paused then Moved(p1, ResumeTarget(m, cur.phase, cur.stepIndex)) else p1;
      Saved(c.(project := p2), cur.phase, cur.stepIndex + 1, cur.iteration, false, None)
  }

}
