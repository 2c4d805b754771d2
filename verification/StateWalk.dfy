/** The static walk over a manifest's steps, and what it says about running the manifest. */
module StateWalk {
  import opened Options
  import opened ProjectStates
  import opened Manifests
  import opened LoopSemantics
  import opened PauseTransparency

  datatype WalkError =
    | IllegalMove(from: ProjectState, to: ProjectState, phase: Phase, step: Step)
    | CannotConverge(from: ProjectState)
    | CannotPause(from: ProjectState, step: Step)
    | CannotResume(to: ProjectState, step: Step)

  /** In synthesis the specialist pipeline counts as synthesizing. */
  function WalkTarget(phase: Phase, step: Step): ProjectState {
    if phase == Synthesis && step == SpecialistPipeline then Synthesizing else TargetState(step)
  }

  function StepErrors(phase: Phase, spec: StepSpec, state: ProjectState): seq<WalkError> {
    var target := WalkTarget(phase, spec.step);
    (if Legal(state, target) then [] else [IllegalMove(state, target, phase, spec.step)])
    + (if !spec.pauseAfter && spec.step != AskUser then []
       else if !Allowed(target, Paused) then [CannotPause(target, spec.step)]
       else if !Allowed(Paused, target) then [CannotResume(target, spec.step)]
       else [])
  }

  function ConvergenceErrors(state: ProjectState): seq<WalkError> {
    if Legal(state, Converged) then [] else [CannotConverge(state)]
  }

  /** The state the walk is in behind the first n steps of a phase. */
  function StateBehind(m: Loop, phase: Phase, n: nat, state: ProjectState): ProjectState
    requires n <= |m.Steps(phase)|
  {
    if n == 0 then state else WalkTarget(phase, m.Steps(phase)[n - 1].step)
  }

  function PhaseErrors(m: Loop, phase: Phase, n: nat, state: ProjectState): seq<WalkError>
    requires n <= |m.Steps(phase)|
  {
    if n == 0 then []
    else PhaseErrors(m, phase, n - 1, state) + StepErrors(phase, m.Steps(phase)[n - 1], StateBehind(m, phase, n - 1, state))
  }

  function AfterSetup(m: Loop): ProjectState {
    StateBehind(m, Setup, |m.setup|, Created)
  }

  function AfterIteration(m: Loop): ProjectState {
    StateBehind(m, PerIteration, |m.perIteration|, AfterSetup(m))
  }

  /** The walk reports an unreachable convergence and then goes on from the state it was in. */
  function BeforeSynthesis(m: Loop): ProjectState {
    if Legal(AfterIteration(m), Converged) then Converged else AfterIteration(m)
  }

  function WalkErrors(m: Loop): seq<WalkError> {
    PhaseErrors(m, Setup, |m.setup|, Created)
    + PhaseErrors(m, PerIteration, |m.perIteration|, AfterSetup(m))
    + ConvergenceErrors(AfterIteration(m))
    + PhaseErrors(m, Synthesis, |m.synthesis|, BeforeSynthesis(m))
  }

  /** Walks one phase, collecting errors; an error does not stop the walk. */
  method WalkPhase(m: Loop, phase: Phase, start: ProjectState) returns (errors: seq<WalkError>, state: ProjectState)
    ensures errors == PhaseErrors(m, phase, |m.Steps(phase)|, start)
    ensures state == StateBehind(m, phase, |m.Steps(phase)|, start)
  {
    hide Allowed;
    hide TargetState;
    errors, state := [], start;
    var steps := m.Steps(phase);
    for i := 0 to |steps|
      invariant errors == PhaseErrors(m, phase, i, start)
      invariant state == StateBehind(m, phase, i, start)
    {
      var spec := steps[i];
      var target := WalkTarget(phase, spec.step);
      ghost var before := errors;
      if target != state {
        if !Allowed(state, target) {
          errors := errors + [IllegalMove(state, target, phase, spec.step)];
        }
      }
      ghost var entered := state;
      state := target;
      if spec.pauseAfter || spec.step == AskUser {
        if !Allowed(state, Paused) {
          errors := errors + [CannotPause(state, spec.step)];
        } else if !Allowed(Paused, state) {
          errors := errors + [CannotResume(state, spec.step)];
        }
      }
      assert errors == before + StepErrors(phase, spec, entered);
    }
  }

  method SimulateStateWalk(m: Loop) returns (errors: seq<WalkError>)
    ensures errors == WalkErrors(m)
  {
    hide Allowed;
    var state: ProjectState := Created;
    var e1, s1 := WalkPhase(m, Setup, state);
    var e2, s2 := WalkPhase(m, PerIteration, s1);
    errors := e1 + e2;
    state := s2;
    if !Allowed(state, Converged) && state != Converged {
      errors := errors + [CannotConverge(state)];
    } else {
      state := Converged;
    }
    var e3, _ := WalkPhase(m, Synthesis, state);
    errors := errors + e3;
  }

  predicate Accepts(m: Loop) {
    WalkErrors(m) == []
  }

  // ------------------------------------------------------------------ running a walked manifest

  /** The step sets each phase may draw from, checked before the walk. */
  predicate DrawnFromPhaseSets(m: Loop) {
    && (forall i :: 0 <= i < |m.setup| ==> m.setup[i].step in {Clarify, AskUser, Plan, GenerateQueries})
    && (forall i :: 0 <= i < |m.perIteration| ==> m.perIteration[i].step !in {Clarify, Plan, GenerateQueries, WriteReports})
    && (forall i :: 0 <= i < |m.synthesis| ==> m.synthesis[i].step in {SpecialistPipeline, WriteReports})
    && m.perIteration != []
  }

  /** What is decided while a manifest runs. */
  datatype Choices = Choices(
    converge: seq<Position> -> bool,
    ask: seq<Position> -> bool,
    metrics: (seq<Position>, nat) -> Option<Metrics>)

  /** A handler that asks the state machine for its step's state, raising when it is refused.
      ask_user may pause; evaluate_convergence may call for convergence; synthesis handlers
      converge first. */
  function Move(phase: Phase, step: Step, state: ProjectState, ask: bool, converge: bool): Effect {
    var via := if phase == Synthesis && state != Synthesizing then Converged else state;
    var target := if phase == Synthesis then Synthesizing else TargetState(step);
    if !Legal(state, via) || !Legal(via, target) then Effect(true, false, state, None, None)
    else if step == AskUser && ask then
      if Legal(target, Paused) then Effect(false, false, Paused, None, Some("WAITING_FOR_USER"))
      else Effect(true, false, target, None, None)
    else Effect(false, step == EvaluateConvergence && converge, target, None, None)
  }

  function Moving(m: Loop, choices: Choices): Environment {
    Environment(
      _ => true,
      (journal: seq<Position>, state: ProjectState) =>
        if journal == [] then Effect(false, false, state, None, None)
        else
          var pos := journal[|journal| - 1];
          if pos.index < |m.Steps(pos.phase)|
          then Move(pos.phase, m.Steps(pos.phase)[pos.index].step, state, choices.ask(journal), choices.converge(journal))
          else Effect(false, false, state, None, None),
      choices.metrics)
  }

  /** The state behind the last step may be followed by the first step of another iteration. */
  predicate WrapsAround(m: Loop)
    requires m.perIteration != []
  {
    Legal(TargetState(m.perIteration[|m.perIteration| - 1].step), TargetState(m.perIteration[0].step))
  }

  function FirstRun(m: Loop, choices: Choices, maxIterations: nat): Outcome {
    Drive(m, Moving(m, choices), maxIterations, Control(Setup, 0, 1), Config(FRESH, []))
  }

  /** No error is reported for step i of a phase entered in the given state. */
  predicate StepFine(m: Loop, phase: Phase, i: nat, state: ProjectState)
    requires i < |m.Steps(phase)|
  {
    StepErrors(phase, m.Steps(phase)[i], StateBehind(m, phase, i, state)) == []
  }

  lemma {:induction false} PhaseFine(m: Loop, phase: Phase, n: nat, state: ProjectState)
    requires n <= |m.Steps(phase)|
    ensures PhaseErrors(m, phase, n, state) == [] <==> forall i :: 0 <= i < n ==> StepFine(m, phase, i, state)
  {
    if n != 0 {
      PhaseFine(m, phase, n - 1, state);
      var before, last := PhaseErrors(m, phase, n - 1, state), StepErrors(phase, m.Steps(phase)[n - 1], StateBehind(m, phase, n - 1, state));
      assert |PhaseErrors(m, phase, n, state)| == |before| + |last|;
      assert StepFine(m, phase, n - 1, state) <==> |last| == 0;
    }
  }

  /** The walk accepts exactly the manifests each of whose steps is fine and which can converge. */
  lemma AcceptsMeans(m: Loop)
    ensures Accepts(m) <==>
      && (forall i :: 0 <= i < |m.setup| ==> StepFine(m, Setup, i, Created))
      && (forall i :: 0 <= i < |m.perIteration| ==> StepFine(m, PerIteration, i, AfterSetup(m)))
      && Legal(AfterIteration(m), Converged)
      && (forall i :: 0 <= i < |m.synthesis| ==> StepFine(m, Synthesis, i, BeforeSynthesis(m)))
  {
    var e1, e2 := PhaseErrors(m, Setup, |m.setup|, Created), PhaseErrors(m, PerIteration, |m.perIteration|, AfterSetup(m));
    var e3, e4 := ConvergenceErrors(AfterIteration(m)), PhaseErrors(m, Synthesis, |m.synthesis|, BeforeSynthesis(m));
    assert |WalkErrors(m)| == |e1| + |e2| + |e3| + |e4|;
    PhaseFine(m, Setup, |m.setup|, Created);
    PhaseFine(m, PerIteration, |m.perIteration|, AfterSetup(m));
    PhaseFine(m, Synthesis, |m.synthesis|, BeforeSynthesis(m));
  }

  /** What the walk has checked and what it has not: the wrap-around into another iteration. */
  predicate Sound(m: Loop, maxIterations: nat) {
    && 1 <= maxIterations
    && DrawnFromPhaseSets(m)
    && Accepts(m)
    && (1 < maxIterations ==> WrapsAround(m))
  }

  /** A running project is in the state the walk was in at the same place. */
  predicate Walked(m: Loop, maxIterations: nat, k: Control, c: Config) {
    && Tracked(k, c)
    && k.index <= |m.Steps(k.phase)|
    && match k.phase
       case Setup => c.project.state == StateBehind(m, Setup, k.index, Created)
       case PerIteration =>
         && k.iteration <= maxIterations
         && c.project.state == StateBehind(m, PerIteration, k.index, if k.iteration == 1 then AfterSetup(m) else AfterIteration(m))
       case Synthesis => c.project.state == Synthesizing || (k.index == 0 && Legal(c.project.state, Converged))
       case Done => true
  }

  /** A step is fine when its state may be entered and, if it may pause, left for Paused;
      a state that may be paused may always be resumed. */
  lemma FineMeans(phase: Phase, spec: StepSpec, state: ProjectState)
    ensures StepErrors(phase, spec, state) == [] <==>
      && Legal(state, WalkTarget(phase, spec.step))
      && (spec.pauseAfter || spec.step == AskUser ==> Allowed(WalkTarget(phase, spec.step), Paused))
  {
    var target := WalkTarget(phase, spec.step);
    var e1 := if Legal(state, target) then [] else [IllegalMove(state, target, phase, spec.step)];
    assert |StepErrors(phase, spec, state)| >= |e1|;
  }

  /** What visiting a step does when its handler moves the project. */
  lemma MovingHandler(m: Loop, choices: Choices, k: Control, c: Config)
    requires k.index < |m.Steps(k.phase)|
    ensures var spec := m.Steps(k.phase)[k.index];
      var c1 := Visited(c, k.Here());
      var e := Move(k.phase, spec.step, c.project.state, choices.ask(c1.journal), choices.converge(c1.journal));
      var h := CallHandler(Moving(m, choices), spec.step, c1);
      && h.signal == (if e.raised then Fail else if e.refused then Refuse else Proceed)
      && h.config.project.state == e.state
      && h.config.project.stopReason == c.project.stopReason
      && h.config.project.currentIteration == c.project.currentIteration
  {
    assert (c.journal + [k.Here()])[|c.journal + [k.Here()]| - 1] == k.Here();
  }

  /** A visit that goes through: on to the next step or to synthesis, or paused and resumable. */
  predicate GoesThrough(m: Loop, k: Control, c: Config, t: Turn)
    requires k.index < |m.Steps(k.phase)|
  {
    var target := TargetState(m.Steps(k.phase)[k.index].step);
    match t
    case Go(k1, c1) =>
      && c1.project.state == target
      && c1.project.currentIteration == c.project.currentIteration
      && (k1 == k.(index := k.index + 1) || (k1 == Control(Synthesis, 0, k.iteration) && Legal(target, Converged)))
    case Halt(r) => r.ending == Yielded && Resumed(m, r.config).project.state == target
  }

  /** In the state the walk was in, a step it found fine goes through. */
  lemma FineVisit(m: Loop, choices: Choices, k: Control, c: Config)
    requires DrawnFromPhaseSets(m) && k.index < |m.Steps(k.phase)| && k.phase != Synthesis
    requires StepErrors(k.phase, m.Steps(k.phase)[k.index], c.project.state) == []
    ensures GoesThrough(m, k, c, VisitStep(m, Moving(m, choices), k, c))
  {
    var spec := m.Steps(k.phase)[k.index];
    FineMeans(k.phase, spec, c.project.state);
    MovingHandler(m, choices, k, c);
    assert spec.step == EvaluateConvergence ==> Legal(TargetState(spec.step), Converged);
    assert TargetState(spec.step) != Paused && ResumeTarget(m, k.phase, k.index) == TargetState(spec.step);
    assert Legal(Paused, TargetState(spec.step));
    hide CallHandler;
    hide Allowed;
    hide TargetState;
    var h := CallHandler(Moving(m, choices), spec.step, Visited(c, k.Here()));
    var r := VisitStep(m, Moving(m, choices), k, c);
    if spec.pauseAfter && h.config.project.state == TargetState(spec.step) {
      PausedThenResumed(m, k, h.config);
      hide PausedAt;
    }
  }

  lemma FineSynthesisVisit(m: Loop, choices: Choices, k: Control, c: Config)
    requires DrawnFromPhaseSets(m) && k.index < |m.synthesis| && k.phase == Synthesis
    requires !m.synthesis[k.index].pauseAfter
    requires c.project.state == Synthesizing || Legal(c.project.state, Converged)
    ensures match VisitStep(m, Moving(m, choices), k, c)
      case Go(k1, c1) =>
        && c1.project.state == Synthesizing && k1 == k.(index := k.index + 1)
        && c1.project.currentIteration == c.project.currentIteration
      case Halt(r) => false
  {
    assert m.Steps(Synthesis)[k.index] == m.synthesis[k.index];
    MovingHandler(m, choices, k, c);
    hide CallHandler;
    hide PausedAt;
  }

  /** What a turn must leave behind for the run to stay where the walk was. */
  predicate StaysWalked(m: Loop, maxIterations: nat, k: Control, t: Turn) {
    match t
    case Go(k1, c1) => Walked(m, maxIterations, k1, c1)
    case Halt(r) =>
      && r.ending != Raised
      && (r.ending == Yielded ==> Walked(m, maxIterations, k.(index := k.index + 1), Resumed(m, r.config)))
  }

  /** The step at a walked control point is fine in the state the project is in. */
  lemma WalkedStepFine(m: Loop, maxIterations: nat, k: Control, c: Config)
    requires Sound(m, maxIterations) && Walked(m, maxIterations, k, c)
    requires k.index < |m.Steps(k.phase)| && k.phase != Synthesis
    ensures StepErrors(k.phase, m.Steps(k.phase)[k.index], c.project.state) == []
  {
    AcceptsMeans(m);
    assert StepFine(m, k.phase, k.index, if k.phase == Setup then Created else AfterSetup(m));
    if k.phase == PerIteration && k.index == 0 && k.iteration != 1 {
      FineMeans(PerIteration, m.perIteration[0], AfterSetup(m));
      FineMeans(PerIteration, m.perIteration[0], c.project.state);
    }
  }

  lemma ThroughIsWalked(m: Loop, maxIterations: nat, k: Control, c: Config, t: Turn)
    requires Walked(m, maxIterations, k, c) && k.index < |m.Steps(k.phase)| && (k.phase == Setup || k.phase == PerIteration)
    requires GoesThrough(m, k, c, t) && ResumesAfter(m, maxIterations, k, t)
    ensures StaysWalked(m, maxIterations, k, t)
  {
    hide TargetState;
    hide Allowed;
    hide Resumed;
  }

  lemma WalkedVisit(m: Loop, choices: Choices, maxIterations: nat, k: Control, c: Config)
    requires Sound(m, maxIterations) && Walked(m, maxIterations, k, c)
    requires k.index < |m.Steps(k.phase)| && k.phase != Synthesis
    ensures StaysWalked(m, maxIterations, k, VisitStep(m, Moving(m, choices), k, c))
  {
    WalkedStepFine(m, maxIterations, k, c);
    FineVisit(m, choices, k, c);
    VisitResumesAfter(m, Moving(m, choices), maxIterations, k, c);
    ThroughIsWalked(m, maxIterations, k, c, VisitStep(m, Moving(m, choices), k, c));
    hide VisitStep;
    hide StaysWalked;
  }

  /** An accepted manifest declares no pause in synthesis: Synthesizing cannot be left for Paused. */
  lemma NoSynthesisPause(m: Loop, i: nat)
    requires DrawnFromPhaseSets(m) && Accepts(m) && i < |m.synthesis|
    ensures !m.synthesis[i].pauseAfter
  {
    AcceptsMeans(m);
    hide Accepts;
    hide StateBehind;
    hide StepErrors;
    hide BeforeSynthesis;
    assert StepFine(m, Synthesis, i, BeforeSynthesis(m));
    FineMeans(Synthesis, m.synthesis[i], StateBehind(m, Synthesis, i, BeforeSynthesis(m)));
  }

  lemma WalkedSynthesis(m: Loop, choices: Choices, maxIterations: nat, k: Control, c: Config)
    requires Sound(m, maxIterations) && Walked(m, maxIterations, k, c)
    requires k.index < |m.synthesis| && k.phase == Synthesis
    ensures StaysWalked(m, maxIterations, k, VisitStep(m, Moving(m, choices), k, c))
  {
    NoSynthesisPause(m, k.index);
    FineSynthesisVisit(m, choices, k, c);
    hide VisitStep;
    hide Sound;
    hide Resumed;
  }

  /** A turn of a soundly walked manifest stays where the walk was and never raises. */
  lemma WalkedTurn(m: Loop, choices: Choices, maxIterations: nat, k: Control, c: Config)
    requires Sound(m, maxIterations) && Walked(m, maxIterations, k, c)
    ensures StaysWalked(m, maxIterations, k, Next(m, Moving(m, choices), maxIterations, k, c))
  {
    hide StopWhenFires;
    hide WalkErrors;
    if k.index < |m.Steps(k.phase)| {
      if k.phase == Synthesis {
        WalkedSynthesis(m, choices, maxIterations, k, c);
      } else {
        WalkedVisit(m, choices, maxIterations, k, c);
      }
      hide VisitStep;
      hide StaysWalked;
      hide LeaveIterations;
    } else {
      AcceptsMeans(m);
    }
  }

  lemma {:induction false} WalkedRun(m: Loop, choices: Choices, maxIterations: nat, k: Control, c: Config)
    requires Sound(m, maxIterations) && Walked(m, maxIterations, k, c)
    ensures Drive(m, Moving(m, choices), maxIterations, k, c).ending == Finished
    decreases Rank(k.phase), Left(maxIterations + 1, k.iteration), Left(|m.Steps(k.phase)|, k.index)
  {
    hide Next;
    hide Accepts;
    hide StateBehind;
    hide DrawnFromPhaseSets;
    var env := Moving(m, choices);
    DriveUnfolds(m, env, maxIterations, k, c);
    ResumesBehind(m, env, maxIterations, k, c);
    WalkedTurn(m, choices, maxIterations, k, c);
    match Next(m, env, maxIterations, k, c)
    case Go(k1, c1) => WalkedRun(m, choices, maxIterations, k1, c1);
    case Halt(r) =>
      if r.ending == Yielded {
        WalkedRun(m, choices, maxIterations, k.(index := k.index + 1), Resumed(m, r.config));
      }
  }

  // ------------------------------------------------------------------ the walk misses nothing

  /** Users who are always asked, and handlers that never call for convergence. */
  const STUBBORN: Choices := Choices(_ => false, _ => true, (_, _) => None)

  /** The steps of a phase entered in the given state are fine from some step on. */
  predicate FineFrom(m: Loop, phase: Phase, start: nat, entry: ProjectState) {
    forall i :: start <= i < |m.Steps(phase)| ==> StepFine(m, phase, i, entry)
  }

  predicate IterationsFine(m: Loop, maxIterations: nat, start: nat, iteration: nat)
    requires DrawnFromPhaseSets(m)
  {
    && FineFrom(m, PerIteration, start, if iteration == 1 then AfterSetup(m) else AfterIteration(m))
    && Legal(AfterIteration(m), Converged)
    && FineFrom(m, Synthesis, 0, Converged)
    && (iteration < maxIterations ==> WrapsAround(m))
  }

  /** Every step from a control point on is fine, and so is leaving or repeating the iterations. */
  predicate AllFine(m: Loop, maxIterations: nat, k: Control)
    requires DrawnFromPhaseSets(m)
  {
    match k.phase
    case Setup => FineFrom(m, Setup, k.index, Created) && IterationsFine(m, maxIterations, 0, 1)
    case PerIteration => IterationsFine(m, maxIterations, k.index, k.iteration)
    case Synthesis => FineFrom(m, Synthesis, k.index, Converged)
    case Done => true
  }

  lemma AllFineIsSound(m: Loop, maxIterations: nat)
    requires DrawnFromPhaseSets(m) && 1 <= maxIterations
    requires AllFine(m, maxIterations, Control(Setup, 0, 1))
    ensures Sound(m, maxIterations)
  {
    AcceptsMeans(m);
    hide Accepts;
    hide StepFine;
    assert FineFrom(m, Setup, 0, Created) && FineFrom(m, PerIteration, 0, AfterSetup(m)) && FineFrom(m, Synthesis, 0, BeforeSynthesis(m));
    assert m.Steps(Setup) == m.setup && m.Steps(PerIteration) == m.perIteration && m.Steps(Synthesis) == m.synthesis;
  }

  /** A step the walk complains about raises. */
  lemma UnfineVisit(m: Loop, k: Control, c: Config)
    requires DrawnFromPhaseSets(m) && k.index < |m.Steps(k.phase)| && k.phase != Synthesis
    requires StepErrors(k.phase, m.Steps(k.phase)[k.index], c.project.state) != []
    ensures var t := VisitStep(m, Moving(m, STUBBORN), k, c); t.Halt? && t.run.ending == Raised
  {
    FineMeans(k.phase, m.Steps(k.phase)[k.index], c.project.state);
    MovingHandler(m, STUBBORN, k, c);
    hide CallHandler;
  }

  lemma UnfineSynthesisVisit(m: Loop, k: Control, c: Config)
    requires DrawnFromPhaseSets(m) && k.index < |m.synthesis| && k.phase == Synthesis
    requires !StepFine(m, Synthesis, k.index, Converged)
    requires c.project.state == Synthesizing || (k.index == 0 && Legal(c.project.state, Converged))
    ensures var t := VisitStep(m, Moving(m, STUBBORN), k, c); t.Halt? && t.run.ending == Raised
  {
    var spec := m.Steps(Synthesis)[k.index];
    assert spec == m.synthesis[k.index];
    FineMeans(Synthesis, spec, StateBehind(m, Synthesis, k.index, Converged));
    assert spec.pauseAfter;
    MovingHandler(m, STUBBORN, k, c);
  }

  lemma UnfineSynthesisHeads(m: Loop, maxIterations: nat, k: Control, c: Config)
    requires DrawnFromPhaseSets(m) && Walked(m, maxIterations, k, c) && k.index < |m.synthesis| && k.phase == Synthesis
    requires !StepFine(m, Synthesis, k.index, Converged)
    ensures HeadsForTrouble(m, maxIterations, k, VisitStep(m, Moving(m, STUBBORN), k, c))
  {
    UnfineSynthesisVisit(m, k, c);
    hide VisitStep;
    hide Allowed;
    hide StepFine;
  }

  lemma NeverConverges(m: Loop, k: Control, c: Config)
    requires DrawnFromPhaseSets(m) && k.index < |m.Steps(k.phase)|
    ensures var t := VisitStep(m, Moving(m, STUBBORN), k, c); t.Go? ==> t.at == k.(index := k.index + 1)
  {
    MovingHandler(m, STUBBORN, k, c);
  }

  /** While something is not fine, a stubborn turn raises or keeps going towards it. */
  predicate HeadsForTrouble(m: Loop, maxIterations: nat, k: Control, t: Turn)
    requires DrawnFromPhaseSets(m)
  {
    match t
    case Go(k1, c1) => Walked(m, maxIterations, k1, c1) && !AllFine(m, maxIterations, k1)
    case Halt(r) =>
      && r.ending != Finished
      && (r.ending == Yielded ==>
            var k1 := k.(index := k.index + 1);
            Walked(m, maxIterations, k1, Resumed(m, r.config)) && !AllFine(m, maxIterations, k1))
  }

  lemma StillTrouble(m: Loop, maxIterations: nat, k: Control)
    requires DrawnFromPhaseSets(m) && !AllFine(m, maxIterations, k)
    requires k.index < |m.Steps(k.phase)| && (k.phase == Setup || k.phase == PerIteration)
    requires StepFine(m, k.phase, k.index, if k.phase == Setup then Created else if k.iteration == 1 then AfterSetup(m) else AfterIteration(m))
    ensures !AllFine(m, maxIterations, k.(index := k.index + 1))
  {
    hide StepFine;
    hide WrapsAround;
    var entry := if k.phase == Setup then Created else if k.iteration == 1 then AfterSetup(m) else AfterIteration(m);
    assert FineFrom(m, k.phase, k.index + 1, entry) ==> FineFrom(m, k.phase, k.index, entry);
  }

  /** Another iteration runs into the same trouble, or cannot even begin. */
  lemma TroubleWrapsAround(m: Loop, maxIterations: nat, k: Control)
    requires DrawnFromPhaseSets(m) && !AllFine(m, maxIterations, k)
    requires k.phase == PerIteration && k.index == |m.perIteration| && 1 <= k.iteration < maxIterations
    ensures !AllFine(m, maxIterations, Control(PerIteration, 0, k.iteration + 1))
  {
    var entry := AfterIteration(m);
    assert entry == TargetState(m.perIteration[|m.perIteration| - 1].step);
    FineMeans(PerIteration, m.perIteration[0], entry);
    assert FineFrom(m, PerIteration, 0, entry) ==> StepFine(m, PerIteration, 0, entry);
    assert FineFrom(m, PerIteration, k.index, if k.iteration == 1 then AfterSetup(m) else entry);
    hide StepErrors;
    hide FineFrom;
  }

  lemma TroubleAtStep(m: Loop, maxIterations: nat, k: Control, c: Config)
    requires DrawnFromPhaseSets(m) && Walked(m, maxIterations, k, c) && !AllFine(m, maxIterations, k)
    requires k.index < |m.Steps(k.phase)| && (k.phase == Setup || k.phase == PerIteration)
    ensures HeadsForTrouble(m, maxIterations, k, VisitStep(m, Moving(m, STUBBORN), k, c))
  {
    var t := VisitStep(m, Moving(m, STUBBORN), k, c);
    if StepErrors(k.phase, m.Steps(k.phase)[k.index], c.project.state) != [] {
      UnfineVisit(m, k, c);
    } else {
      FineVisit(m, STUBBORN, k, c);
      NeverConverges(m, k, c);
      VisitResumesAfter(m, Moving(m, STUBBORN), maxIterations, k, c);
      ThroughIsWalked(m, maxIterations, k, c, t);
      assert StepFine(m, k.phase, k.index, if k.phase == Setup then Created else if k.iteration == 1 then AfterSetup(m) else AfterIteration(m));
      StillTrouble(m, maxIterations, k);
    }
    hide VisitStep;
  }

  /** A fine step of synthesis is left for the next one, and the trouble lies behind it. */
  lemma FineSynthesisHeads(m: Loop, maxIterations: nat, k: Control, c: Config)
    requires DrawnFromPhaseSets(m) && Walked(m, maxIterations, k, c) && !AllFine(m, maxIterations, k)
    requires k.phase == Synthesis && k.index < |m.synthesis| && StepFine(m, Synthesis, k.index, Converged)
    ensures HeadsForTrouble(m, maxIterations, k, VisitStep(m, Moving(m, STUBBORN), k, c))
  {
    FineMeans(Synthesis, m.synthesis[k.index], StateBehind(m, Synthesis, k.index, Converged));
    FineSynthesisVisit(m, STUBBORN, k, c);
    hide VisitStep;
    hide Allowed;
    hide TargetState;
    hide StateBehind;
    hide StepErrors;
  }

  /** Somewhere in synthesis a step that is not fine lies ahead. */
  lemma TroubleIsAhead(m: Loop, maxIterations: nat, k: Control)
    requires DrawnFromPhaseSets(m) && k.phase == Synthesis && !AllFine(m, maxIterations, k)
    ensures k.index < |m.synthesis|
  {
  }

  lemma TroubleInSynthesis(m: Loop, maxIterations: nat, k: Control, c: Config)
    requires DrawnFromPhaseSets(m) && Walked(m, maxIterations, k, c) && !AllFine(m, maxIterations, k)
    requires k.phase == Synthesis
    ensures k.index < |m.synthesis|
    ensures HeadsForTrouble(m, maxIterations, k, VisitStep(m, Moving(m, STUBBORN), k, c))
  {
    TroubleIsAhead(m, maxIterations, k);
    if !StepFine(m, Synthesis, k.index, Converged) {
      UnfineSynthesisHeads(m, maxIterations, k, c);
    } else {
      FineSynthesisHeads(m, maxIterations, k, c);
    }
    hide VisitStep;
    hide Allowed;
    hide StepFine;
    hide HeadsForTrouble;
  }

  /** At the end of the setup or of an iteration trouble lies ahead, or the move to Converged is the trouble. */
  lemma TroubleAtEnd(m: Loop, maxIterations: nat, k: Control, c: Config)
    requires DrawnFromPhaseSets(m) && Walked(m, maxIterations, k, c) && !AllFine(m, maxIterations, k) && 1 <= maxIterations
    requires k.index == |m.Steps(k.phase)| && (k.phase == Setup || k.phase == PerIteration)
    ensures HeadsForTrouble(m, maxIterations, k, Next(m, Moving(m, STUBBORN), maxIterations, k, c))
  {
    if k.phase == PerIteration && k.iteration < maxIterations {
      TroubleWrapsAround(m, maxIterations, k);
    }
    hide StepFine;
    hide VisitStep;
  }

  lemma TroubleAhead(m: Loop, maxIterations: nat, k: Control, c: Config)
    requires DrawnFromPhaseSets(m) && Walked(m, maxIterations, k, c) && !AllFine(m, maxIterations, k) && 1 <= maxIterations
    ensures HeadsForTrouble(m, maxIterations, k, Next(m, Moving(m, STUBBORN), maxIterations, k, c))
  {
    if k.phase == Synthesis {
      TroubleInSynthesis(m, maxIterations, k, c);
    } else if k.index < |m.Steps(k.phase)| {
      TroubleAtStep(m, maxIterations, k, c);
    } else {
      TroubleAtEnd(m, maxIterations, k, c);
    }
    hide VisitStep;
    hide HeadsForTrouble;
  }

  lemma {:induction false} TroubleRaises(m: Loop, maxIterations: nat, k: Control, c: Config)
    requires DrawnFromPhaseSets(m) && Walked(m, maxIterations, k, c) && !AllFine(m, maxIterations, k) && 1 <= maxIterations
    ensures Drive(m, Moving(m, STUBBORN), maxIterations, k, c).ending == Raised
    decreases Rank(k.phase), Left(maxIterations + 1, k.iteration), Left(|m.Steps(k.phase)|, k.index)
  {
    hide Next;
    hide AllFine;
    hide StateBehind;
    hide DrawnFromPhaseSets;
    var env := Moving(m, STUBBORN);
    DriveUnfolds(m, env, maxIterations, k, c);
    ResumesBehind(m, env, maxIterations, k, c);
    TroubleAhead(m, maxIterations, k, c);
    match Next(m, env, maxIterations, k, c)
    case Go(k1, c1) => TroubleRaises(m, maxIterations, k1, c1);
    case Halt(r) =>
      if r.ending == Yielded {
        TroubleRaises(m, maxIterations, k.(index := k.index + 1), Resumed(m, r.config));
      }
  }

  /** Static walk soundness and completeness: a manifest runs to its end without an illegal move,
      whatever its users and handlers decide and with every pause resumed, exactly when the walk
      accepts it and, if it may iterate again, its last state may be followed by its first step. */
  lemma WalkDecidesLegality(m: Loop, maxIterations: nat)
    requires DrawnFromPhaseSets(m) && 1 <= maxIterations
    ensures (forall choices :: FirstRun(m, choices, maxIterations).ending == Finished)
      <==> Accepts(m) && (1 < maxIterations ==> WrapsAround(m))
  {
    var k, c := Control(Setup, 0, 1), Config(FRESH, []);
    if Sound(m, maxIterations) {
      forall choices ensures FirstRun(m, choices, maxIterations).ending == Finished {
        WalkedRun(m, choices, maxIterations, k, c);
      }
    } else {
      if AllFine(m, maxIterations, k) {
        AllFineIsSound(m, maxIterations);
      }
      TroubleRaises(m, maxIterations, k, c);
      assert FirstRun(m, STUBBORN, maxIterations).ending == Raised;
    }
  }

  const ONCE_ONLY: Loop := Loop(
    [StepSpec(Clarify, false, None), StepSpec(GenerateQueries, false, None)],
    [StepSpec(Search, false, None), StepSpec(EvaluateConvergence, false, None)],
    [],
    [StepSpec(WriteReports, false, None)])

  lemma OnceOnlyAccepted()
    ensures Accepts(ONCE_ONLY)
  {
    var m := ONCE_ONLY;
    FineMeans(Setup, m.setup[0], Created);
    FineMeans(Setup, m.setup[1], Clarifying);
    FineMeans(PerIteration, m.perIteration[0], Planned);
    FineMeans(PerIteration, m.perIteration[1], Searching);
    FineMeans(Synthesis, m.synthesis[0], Converged);
    AcceptsMeans(m);
    hide StepErrors;
    hide Accepts;
  }

  /** The walk alone does not cover a second iteration: this manifest is accepted and may still raise. */
  lemma SecondIterationMayBeIllegal()
    ensures Accepts(ONCE_ONLY)
    ensures exists choices :: FirstRun(ONCE_ONLY, choices, 2).ending != Finished
  {
    OnceOnlyAccepted();
    WalkDecidesLegality(ONCE_ONLY, 2);
    hide Accepts;
    hide FirstRun;
  }

  /** Every step of an accepted manifest may be entered from where the walk was. */
  lemma AcceptedStep(m: Loop, phase: Phase, i: nat, entry: ProjectState)
    requires Accepts(m) && i < |m.Steps(phase)|
    requires (phase == Setup && entry == Created) || (phase == PerIteration && entry == AfterSetup(m))
    ensures Legal(StateBehind(m, phase, i, entry), TargetState(m.Steps(phase)[i].step))
  {
    AcceptsMeans(m);
    hide Accepts;
    hide AfterSetup;
    hide StateBehind;
    hide StepErrors;
    assert StepFine(m, phase, i, entry);
    FineMeans(phase, m.Steps(phase)[i], StateBehind(m, phase, i, entry));
  }

  /** Before the queries are generated, iteration steps could do nothing but ask the user. */
  lemma {:induction false} OnlyAsks(m: Loop, n: nat)
    requires DrawnFromPhaseSets(m) && Accepts(m) && AfterSetup(m) != Planned
    requires n < |m.perIteration|
    ensures m.perIteration[n].step == AskUser
  {
    hide Accepts;
    SetupStays(m);
    if n != 0 {
      OnlyAsks(m, n - 1);
    }
    hide AfterSetup;
    AcceptedStep(m, PerIteration, n, AfterSetup(m));
    NothingButAsks(m.perIteration[n].step, StateBehind(m, PerIteration, n, AfterSetup(m)));
  }

  lemma NothingButAsks(step: Step, before: ProjectState)
    requires before in {Created, Clarifying} && Legal(before, TargetState(step)) && step !in {Clarify, Plan, GenerateQueries, WriteReports}
    ensures step == AskUser
  {
  }

  lemma SetupStays(m: Loop)
    requires DrawnFromPhaseSets(m)
    ensures AfterSetup(m) in {Created, Clarifying, Planned}
    ensures AfterSetup(m) == Planned ==> m.setup != [] && m.setup[|m.setup| - 1].step == GenerateQueries
  {
  }

  lemma SetupPlans(m: Loop)
    requires DrawnFromPhaseSets(m) && Accepts(m)
    ensures AfterSetup(m) == Planned
  {
    AcceptsMeans(m);
    if AfterSetup(m) != Planned {
      OnlyAsks(m, |m.perIteration| - 1);
      assert false;
    }
    hide Accepts;
  }

  /** Every accepted manifest begins its setup in CLARIFYING, ends it with generate_queries and begins its
      iterations with search: nothing else leads from CREATED to a loop that can converge. */
  lemma AcceptedShape(m: Loop)
    requires DrawnFromPhaseSets(m) && Accepts(m)
    ensures m.setup != [] && TargetState(m.setup[0].step) == Clarifying
    ensures m.setup[|m.setup| - 1].step == GenerateQueries
    ensures m.perIteration[0].step == Search
  {
    hide Accepts;
    SetupPlans(m);
    SetupStays(m);
    hide AfterSetup;
    AcceptedStep(m, Setup, 0, Created);
    AcceptedStep(m, PerIteration, 0, Planned);
  }

  // ------------------------------------------------------------------ pauses of accepted manifests

  /** The walk has checked that every declared pause can be taken. */
  lemma AcceptedIsPausable(m: Loop)
    requires DrawnFromPhaseSets(m) && Accepts(m)
    ensures Pausable(m)
  {
    forall phase, i | 0 <= i < |m.Steps(phase)| && m.Steps(phase)[i].pauseAfter
      ensures Allowed(TargetState(m.Steps(phase)[i].step), Paused)
    {
      if phase == Synthesis {
        NoSynthesisPause(m, i);
      } else {
        OthersPausable(m, phase, i);
      }
    }
    hide Accepts;
    hide DrawnFromPhaseSets;
    hide Allowed;
    hide TargetState;
  }

  lemma OthersPausable(m: Loop, phase: Phase, i: nat)
    requires DrawnFromPhaseSets(m) && i < |m.Steps(phase)| && phase != Synthesis
    ensures Allowed(TargetState(m.Steps(phase)[i].step), Paused)
  {
    assert m.Steps(phase)[i].step != WriteReports;
  }

  /** Pausing and resuming an accepted manifest never changes a whole run, whatever its handlers, exactly
      when it declares no pause after evaluate_convergence inside the iterations. */
  lemma AcceptedTransparentExactlyWhen(m: Loop, maxIterations: nat)
    requires DrawnFromPhaseSets(m) && Accepts(m) && 1 <= maxIterations
    ensures Transparent(m, maxIterations) <==> NoConvergencePause(m)
  {
    AcceptedIsPausable(m);
    TransparentExactlyWhen(m, maxIterations);
    hide Accepts;
    hide Transparent;
  }
}
