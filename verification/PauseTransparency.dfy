/** Pausing and resuming a declared loop does not change what it executes. */
module PauseTransparency {
  import opened Options
  import opened ProjectStates
  import opened Manifests
  import opened LoopSemantics

  /** The facts about a project that do not concern pausing itself. */
  predicate Agree(c: Config, c1: Config) {
    && c.project.state == c1.project.state
    && c.project.stopReason == c1.project.stopReason
    && c.project.currentIteration == c1.project.currentIteration
    && c.journal == c1.journal
  }

  /** The iteration of a control point past setup is the project's own counter. */
  predicate Tracked(k: Control, c: Config) {
    match k.phase
    case Setup => k.iteration == 1
    case PerIteration => 1 <= k.iteration == c.project.currentIteration
    case Synthesis | Done => k.iteration == c.project.currentIteration
  }

  /** A step with a declared pause has a handler, which leaves the state the step stands for,
      or stops the run by itself. */
  predicate LeavesTarget(env: Environment, spec: StepSpec, journal: seq<Position>, state: ProjectState) {
    && env.handles(spec.step)
    && var e := env.handle(journal, state);
       e.raised || e.state == Paused || e.state == TargetState(spec.step)
  }

  ghost predicate WellBehaved(m: Loop, env: Environment) {
    forall pos: Position, journal, state | pos.index < |m.Steps(pos.phase)| && m.Steps(pos.phase)[pos.index].pauseAfter
      :: LeavesTarget(env, m.Steps(pos.phase)[pos.index], journal + [pos], state)
  }

  /** Every step with a declared pause stands for a state that may be paused. */
  predicate Pausable(m: Loop) {
    forall phase, i | 0 <= i < |m.Steps(phase)| && m.Steps(phase)[i].pauseAfter
      :: Allowed(TargetState(m.Steps(phase)[i].step), Paused)
  }

  /** evaluate_convergence is never paused on inside the iterations. */
  predicate NoConvergencePause(m: Loop) {
    forall i :: 0 <= i < |m.perIteration| && m.perIteration[i].step == EvaluateConvergence ==> !m.perIteration[i].pauseAfter
  }

  /** Resuming a yield continues at the step after the one that yielded. */
  predicate ResumesAfter(m: Loop, maxIterations: nat, k: Control, t: Turn) {
    && (t.Go? ==> Tracked(t.at, t.config))
    && (t.Halt? && t.run.ending == Yielded ==>
          var c1 := Resumed(m, t.run.config);
          && k.index < |m.Steps(k.phase)|
          && Start(c1.project) == k.(index := k.index + 1)
          && Tracked(Start(c1.project), c1)
          && Entered(c1) == c1
          && Before(m, maxIterations, k, Start(c1.project)))
  }

  lemma VisitResumesAfter(m: Loop, env: Environment, maxIterations: nat, k: Control, c: Config)
    requires Tracked(k, c) && k.index < |m.Steps(k.phase)|
    ensures ResumesAfter(m, maxIterations, k, VisitStep(m, env, k, c))
  {
    hide Allowed;
    hide TargetState;
  }

  lemma ResumesBehind(m: Loop, env: Environment, maxIterations: nat, k: Control, c: Config)
    requires Tracked(k, c)
    ensures ResumesAfter(m, maxIterations, k, Next(m, env, maxIterations, k, c))
  {
    if k.index < |m.Steps(k.phase)| {
      VisitResumesAfter(m, env, maxIterations, k, c);
      hide VisitStep;
    }
    hide StopWhenFires;
    hide Resumed;
  }

  /** Wherever a tracked run yields, the resumed control point is further on. */
  lemma {:induction false} YieldsForward(m: Loop, env: Environment, maxIterations: nat, k: Control, c: Config)
    requires Tracked(k, c)
    ensures var r := Exec(m, env, maxIterations, k, c);
      r.ending == Yielded ==>
        var c1 := Resumed(m, r.config);
        && Tracked(Start(c1.project), c1)
        && Entered(c1) == c1
        && Before(m, maxIterations, k, Start(c1.project))
    decreases Rank(k.phase), Left(maxIterations + 1, k.iteration), Left(|m.Steps(k.phase)|, k.index)
  {
    ResumesBehind(m, env, maxIterations, k, c);
    match Next(m, env, maxIterations, k, c)
    case Halt(_) =>
    case Go(k1, c1) => YieldsForward(m, env, maxIterations, k1, c1);
  }

  /** A run resumed after every yield until it finishes or raises. */
  function Drive(m: Loop, env: Environment, maxIterations: nat, k: Control, c: Config): Outcome
    requires Tracked(k, c)
    decreases Rank(k.phase), Left(maxIterations + 1, k.iteration), Left(|m.Steps(k.phase)|, k.index)
  {
    var r := Exec(m, env, maxIterations, k, c);
    if r.ending != Yielded then
      r
    else
      var c1 := Resumed(m, r.config);
      YieldsForward(m, env, maxIterations, k, c);
      Drive(m, env, maxIterations, Start(c1.project), c1)
  }

  /** Driving takes one turn, resuming if the turn yields. */
  lemma DriveUnfolds(m: Loop, env: Environment, maxIterations: nat, k: Control, c: Config)
    requires Tracked(k, c)
    ensures var t := Next(m, env, maxIterations, k, c);
      Drive(m, env, maxIterations, k, c) ==
        match t
        case Go(k1, c1) => (ResumesBehind(m, env, maxIterations, k, c); Drive(m, env, maxIterations, k1, c1))
        case Halt(r) =>
          if r.ending == Yielded then
            (ResumesBehind(m, env, maxIterations, k, c);
             Drive(m, env, maxIterations, k.(index := k.index + 1), Resumed(m, r.config)))
          else r
  {
    ResumesBehind(m, env, maxIterations, k, c);
  }

  lemma SameSteps(m: Loop, phase: Phase)
    ensures |m.WithoutPauses().Steps(phase)| == |m.Steps(phase)|
    ensures forall i :: 0 <= i < |m.Steps(phase)| ==> m.WithoutPauses().Steps(phase)[i] == m.Steps(phase)[i].(pauseAfter := false)
  {
  }

  /** A turn of the paused loop, resumed if it yields, leads where the unpaused loop's turn leads. */
  predicate TurnsMatch(m: Loop, k: Control, t: Turn, t0: Turn) {
    match t
    case Go(k1, c1) => t0.Go? && t0.at == k1 && Agree(c1, t0.config)
    case Halt(r) =>
      if r.ending == Yielded then
        var c1 := Resumed(m, r.config);
        || (t0.Go? && t0.at == k.(index := k.index + 1) && Agree(c1, t0.config))
        || (t0.Halt? && t0.run.ending == Yielded && Agree(c1, Resumed(m.WithoutPauses(), t0.run.config)))
      else
        t0.Halt? && t0.run.ending == r.ending && Agree(r.config, t0.run.config)
  }

  /** Pausing in the state a step stands for and resuming changes nothing but the cursor and gates. */
  lemma PausedThenResumed(m: Loop, k: Control, c: Config)
    requires k.index < |m.Steps(k.phase)|
    requires c.project.state == TargetState(m.Steps(k.phase)[k.index].step) && Allowed(c.project.state, Paused)
    ensures var r := PausedAt(c, k.Here(), m.Steps(k.phase)[k.index]);
      r.ending == Yielded && Agree(Resumed(m, r.config), c)
  {
  }

  lemma VisitsMatch(m: Loop, env: Environment, k: Control, c: Config, c0: Config)
    requires Tracked(k, c) && Agree(c, c0)
    requires k.index < |m.Steps(k.phase)|
    requires m.Steps(k.phase)[k.index].pauseAfter ==>
      && LeavesTarget(env, m.Steps(k.phase)[k.index], c.journal + [k.Here()], c.project.state)
      && Allowed(TargetState(m.Steps(k.phase)[k.index].step), Paused)
      && (k.phase == PerIteration ==> m.Steps(k.phase)[k.index].step != EvaluateConvergence)
    ensures |m.WithoutPauses().Steps(k.phase)| == |m.Steps(k.phase)|
    ensures TurnsMatch(m, k, VisitStep(m, env, k, c), VisitStep(m.WithoutPauses(), env, k, c0))
  {
    SameSteps(m, k.phase);
    var spec := m.Steps(k.phase)[k.index];
    var h, h0 := CallHandler(env, spec.step, Visited(c, k.Here())), CallHandler(env, spec.step, Visited(c0, k.Here()));
    assert Agree(h.config, h0.config) && h.signal == h0.signal;
    assert spec.pauseAfter && h.signal != Fail ==> h.config.project.state == Paused || h.config.project.state == TargetState(spec.step);
    if spec.pauseAfter && h.signal != Fail && h.config.project.state != Paused {
      PausedThenResumed(m, k, h.config);
    }
    hide CallHandler;
    hide TargetState;
    hide PausedAt;
  }

  lemma TurnsAgree(m: Loop, env: Environment, maxIterations: nat, k: Control, c: Config, c0: Config)
    requires Tracked(k, c) && Agree(c, c0)
    requires WellBehaved(m, env) && Pausable(m) && NoConvergencePause(m)
    ensures TurnsMatch(m, k, Next(m, env, maxIterations, k, c), Next(m.WithoutPauses(), env, maxIterations, k, c0))
  {
    SameSteps(m, k.phase);
    if k.index < |m.Steps(k.phase)| {
      VisitsMatch(m, env, k, c, c0);
    }
  }

  /** Pause transparency: a loop run and resumed after each of its pauses ends as the same loop
      with every declared pause removed, having executed the same steps in the same order. */
  lemma {:induction false} PausesAreTransparent(m: Loop, env: Environment, maxIterations: nat, k: Control, c: Config, c0: Config)
    requires Tracked(k, c) && Agree(c, c0)
    requires WellBehaved(m, env) && Pausable(m) && NoConvergencePause(m)
    ensures Tracked(k, c0)
    ensures var r, r0 := Drive(m, env, maxIterations, k, c), Drive(m.WithoutPauses(), env, maxIterations, k, c0);
      r.ending == r0.ending && Agree(r.config, r0.config)
    decreases Rank(k.phase), Left(maxIterations + 1, k.iteration), Left(|m.Steps(k.phase)|, k.index)
  {
    var m0 := m.WithoutPauses();
    TurnsAgree(m, env, maxIterations, k, c, c0);
    DriveUnfolds(m, env, maxIterations, k, c);
    DriveUnfolds(m0, env, maxIterations, k, c0);
    ResumesBehind(m, env, maxIterations, k, c);
    ResumesBehind(m0, env, maxIterations, k, c0);
    match Next(m, env, maxIterations, k, c)
    case Go(k1, c1) =>
      PausesAreTransparent(m, env, maxIterations, k1, c1, Next(m0, env, maxIterations, k, c0).config);
    case Halt(r) =>
      if r.ending == Yielded {
        var t0 := Next(m0, env, maxIterations, k, c0);
        PausesAreTransparent(m, env, maxIterations, k.(index := k.index + 1), Resumed(m, r.config),
                             if t0.Go? then t0.config else Resumed(m0, t0.run.config));
      }
  }

  // ------------------------------------------------------------------ exactly when

  /** A whole run of a fresh project: run, and resumed and run again after every yield. */
  function WholeRun(m: Loop, env: Environment, maxIterations: nat): Outcome {
    Drive(m, env, maxIterations, Start(FRESH), Entered(Config(FRESH, [])))
  }

  /** Whatever the handlers, a whole run ends as without the declared pauses. */
  ghost predicate Transparent(m: Loop, maxIterations: nat) {
    forall env | WellBehaved(m, env) :: Unchanged(WholeRun(m, env, maxIterations), WholeRun(m.WithoutPauses(), env, maxIterations))
  }

  predicate Unchanged(r: Outcome, r0: Outcome) {
    r.ending == r0.ending && Agree(r.config, r0.config)
  }

  /** Handlers that always leave their step's state, and call for convergence
      exactly at the evaluate_convergence steps the loop pauses on. */
  function Diligent(m: Loop): Environment {
    Environment(
      _ => true,
      (journal: seq<Position>, state: ProjectState) =>
        if journal == [] then Effect(false, false, state, None, None)
        else
          var pos := journal[|journal| - 1];
          if pos.index < |m.Steps(pos.phase)| then
            var spec := m.Steps(pos.phase)[pos.index];
            Effect(false, pos.phase == PerIteration && spec.step == EvaluateConvergence && spec.pauseAfter,
                   TargetState(spec.step), None, None)
          else Effect(false, false, state, None, None),
      (_, _) => None)
  }

  lemma DiligentBehaves(m: Loop)
    ensures WellBehaved(m, Diligent(m))
  {
  }

  /** What a diligent visit does to the project. */
  lemma DiligentVisit(m: Loop, m1: Loop, k: Control, c: Config)
    requires m1 == m || m1 == m.WithoutPauses()
    requires k.index < |m1.Steps(k.phase)|
    ensures |m1.Steps(k.phase)| == |m.Steps(k.phase)|
    ensures var spec := m.Steps(k.phase)[k.index];
      var h := CallHandler(Diligent(m), m1.Steps(k.phase)[k.index].step, Visited(c, k.Here()));
      && h.config.project.state == TargetState(spec.step)
      && h.config.project.stopReason == c.project.stopReason
      && h.config.project.currentIteration == c.project.currentIteration
      && h.signal == if k.phase == PerIteration && spec.step == EvaluateConvergence && spec.pauseAfter then Refuse else Proceed
  {
    SameSteps(m, k.phase);
    assert (c.journal + [k.Here()])[|c.journal + [k.Here()]| - 1] == k.Here();
  }

  /** A diligent turn without pauses: only leaving the iterations can raise, with a reason named. */
  lemma DiligentUnpausedTurn(m: Loop, maxIterations: nat, k: Control, c: Config)
    requires Tracked(k, c)
    ensures match Next(m.WithoutPauses(), Diligent(m), maxIterations, k, c)
      case Go(k1, c1) => k.phase == Synthesis ==> k1.phase == Synthesis && c1.project.stopReason == c.project.stopReason
      case Halt(r) =>
        && r.ending != Yielded
        && (r.ending == Raised ==> k.phase == PerIteration && r.config.project.stopReason.Some?)
        && (k.phase == Synthesis ==> r.config.project.stopReason == c.project.stopReason)
  {
    SameSteps(m, k.phase);
    hide StopWhenFires;
    if k.index < |m.Steps(k.phase)| {
      DiligentVisit(m, m.WithoutPauses(), k, c);
      hide CallHandler;
      hide LeaveIterations;
      hide TargetState;
      hide PausedAt;
    }
  }

  /** Without pauses a diligent run never yields, raises only after naming a stop reason,
      and once past the iterations finishes with its stop reason untouched. */
  lemma {:induction false} DiligentUnpaused(m: Loop, maxIterations: nat, k: Control, c: Config)
    requires Tracked(k, c)
    ensures var r := Exec(m.WithoutPauses(), Diligent(m), maxIterations, k, c);
      && r.ending != Yielded
      && (r.ending == Raised ==> r.config.project.stopReason.Some?)
      && (k.phase == Synthesis ==> r.ending == Finished && r.config.project.stopReason == c.project.stopReason)
    decreases Rank(k.phase), Left(maxIterations + 1, k.iteration), Left(|m.Steps(k.phase)|, k.index)
  {
    hide Next;
    var m0, env := m.WithoutPauses(), Diligent(m);
    SameSteps(m, k.phase);
    ResumesBehind(m0, env, maxIterations, k, c);
    DiligentUnpausedTurn(m, maxIterations, k, c);
    match Next(m0, env, maxIterations, k, c)
    case Halt(_) =>
    case Go(k1, c1) => DiligentUnpaused(m, maxIterations, k1, c1);
  }

  /** A stop reason is named, or the run is not past its iterations and has not converged. */
  predicate Committed(maxIterations: nat, k: Control, c: Config) {
    || c.project.stopReason.Some?
    || ((k.phase == Setup || k.phase == PerIteration) && k.iteration <= maxIterations && c.project.state != Converged)
  }

  /** Resuming keeps the stop reason and restores the state of the paused step. */
  lemma ResumedRestores(m: Loop, c: Config)
    ensures var c1 := Resumed(m, c);
      && c1.project.stopReason == c.project.stopReason
      && c1.project.currentIteration == c.project.currentIteration
      && (c.project.state == Paused && c.project.cursor.At? && c.project.cursor.pendingPause ==>
            c1.project.state == ResumeTarget(m, c.project.cursor.phase, c.project.cursor.stepIndex))
  {
  }

  /** What a turn of the paused loop must leave behind for the run to stay committed. */
  predicate StaysCommitted(m: Loop, maxIterations: nat, k: Control, t: Turn) {
    match t
    case Go(k1, c1) => Committed(maxIterations, k1, c1)
    case Halt(r) =>
      match r.ending
      case Yielded => Committed(maxIterations, k.(index := k.index + 1), Resumed(m, r.config))
      case Raised => true
      case Finished => r.config.project.stopReason.Some?
  }

  /** No step stands for pausing or for having converged. */
  lemma TargetsAreActive(step: Step)
    ensures TargetState(step) != Paused && TargetState(step) != Converged
  {
  }

  /** A declared pause taken by a committed project leaves it committed once it is resumed. */
  lemma PausingCommits(m: Loop, maxIterations: nat, k: Control, c: Config)
    requires Committed(maxIterations, k, c) && k.index < |m.Steps(k.phase)|
    ensures StaysCommitted(m, maxIterations, k, Halt(PausedAt(c, k.Here(), m.Steps(k.phase)[k.index])))
  {
    TargetsAreActive(m.Steps(k.phase)[k.index].step);
    hide TargetState;
    ResumedRestores(m, PausedAt(c, k.Here(), m.Steps(k.phase)[k.index]).config);
  }

  lemma DiligentVisitCommits(m: Loop, maxIterations: nat, k: Control, c: Config)
    requires Committed(maxIterations, k, c) && k.index < |m.Steps(k.phase)|
    ensures StaysCommitted(m, maxIterations, k, VisitStep(m, Diligent(m), k, c))
  {
    var spec := m.Steps(k.phase)[k.index];
    DiligentVisit(m, m, k, c);
    TargetsAreActive(spec.step);
    var h := CallHandler(Diligent(m), spec.step, Visited(c, k.Here()));
    if spec.pauseAfter {
      PausingCommits(m, maxIterations, k, h.config);
    }
    hide TargetState;
    hide CallHandler;
    hide PausedAt;
    hide Resumed;
  }

  lemma DiligentTurn(m: Loop, maxIterations: nat, k: Control, c: Config)
    requires Tracked(k, c) && Committed(maxIterations, k, c)
    ensures StaysCommitted(m, maxIterations, k, Next(m, Diligent(m), maxIterations, k, c))
  {
    if k.index < |m.Steps(k.phase)| {
      DiligentVisitCommits(m, maxIterations, k, c);
    }
  }

  /** With its pauses a committed diligent run raises or names a stop reason:
      the convergence its handlers call for at a paused step is lost. */
  lemma {:induction false} DiligentPaused(m: Loop, maxIterations: nat, k: Control, c: Config)
    requires Tracked(k, c) && Committed(maxIterations, k, c)
    ensures var r := Drive(m, Diligent(m), maxIterations, k, c);
      r.ending == Raised || r.config.project.stopReason.Some?
    decreases Rank(k.phase), Left(maxIterations + 1, k.iteration), Left(|m.Steps(k.phase)|, k.index)
  {
    var env := Diligent(m);
    DriveUnfolds(m, env, maxIterations, k, c);
    ResumesBehind(m, env, maxIterations, k, c);
    DiligentTurn(m, maxIterations, k, c);
    match Next(m, env, maxIterations, k, c)
    case Go(k1, c1) => DiligentPaused(m, maxIterations, k1, c1);
    case Halt(r) =>
      if r.ending == Yielded {
        DiligentPaused(m, maxIterations, k.(index := k.index + 1), Resumed(m, r.config));
      }
  }

  /** Without pauses the convergence a diligent handler calls for leads to synthesis. */
  lemma DiligentConverges(m: Loop, maxIterations: nat, k: Control, c: Config)
    requires k.phase == PerIteration && k.iteration <= maxIterations && k.index < |m.perIteration|
    requires m.perIteration[k.index].step == EvaluateConvergence && m.perIteration[k.index].pauseAfter
    ensures var t := Next(m.WithoutPauses(), Diligent(m), maxIterations, k, c);
      && t.Go? && t.at == Control(Synthesis, 0, k.iteration)
      && t.config.project.stopReason == c.project.stopReason
      && t.config.project.currentIteration == c.project.currentIteration
  {
    SameSteps(m, PerIteration);
    assert m.Steps(PerIteration)[k.index] == m.perIteration[k.index];
    DiligentVisit(m, m.WithoutPauses(), k, c);
    hide CallHandler;
    hide Diligent;
  }

  /** A run that has yet to come to the i-th step of its first iteration. */
  predicate OnTheWay(m: Loop, k: Control, i: nat) {
    k.iteration == 1 && (k.phase == Setup || (k.phase == PerIteration && k.index <= i < |m.perIteration|))
  }

  predicate PausedConvergence(m: Loop, i: nat) {
    i < |m.perIteration| && m.perIteration[i].step == EvaluateConvergence && m.perIteration[i].pauseAfter
  }

  /** Without pauses a diligent run on its way to a paused convergence step goes on, step by step or to synthesis. */
  lemma DiligentGoesOn(m: Loop, maxIterations: nat, k: Control, c: Config, i: nat)
    requires Tracked(k, c) && OnTheWay(m, k, i) && PausedConvergence(m, i) && 1 <= maxIterations
    ensures var t := Next(m.WithoutPauses(), Diligent(m), maxIterations, k, c);
      && t.Go? && t.config.project.stopReason == c.project.stopReason
      && (OnTheWay(m, t.at, i) || t.at.phase == Synthesis)
  {
    SameSteps(m, k.phase);
    hide Allowed;
    hide TargetState;
    if k.phase == PerIteration && PausedConvergence(m, k.index) {
      DiligentConverges(m, maxIterations, k, c);
      hide Next;
    } else if k.index < |m.Steps(k.phase)| {
      DiligentVisit(m, m.WithoutPauses(), k, c);
      assert m.Steps(PerIteration) == m.perIteration;
      TargetsAreActive(m.Steps(k.phase)[k.index].step);
      hide CallHandler;
      hide PausedAt;
    }
  }

  /** Without pauses a diligent run that comes to a paused convergence step finishes without a stop reason of its own. */
  lemma {:induction false} DiligentFinishes(m: Loop, maxIterations: nat, k: Control, c: Config, i: nat)
    requires Tracked(k, c) && OnTheWay(m, k, i) && PausedConvergence(m, i) && 1 <= maxIterations
    ensures var r := Exec(m.WithoutPauses(), Diligent(m), maxIterations, k, c);
      r.ending == Finished && r.config.project.stopReason == c.project.stopReason
    decreases Rank(k.phase), Left(maxIterations + 1, k.iteration), Left(|m.Steps(k.phase)|, k.index)
  {
    var m0, env := m.WithoutPauses(), Diligent(m);
    SameSteps(m, k.phase);
    DiligentGoesOn(m, maxIterations, k, c, i);
    ResumesBehind(m0, env, maxIterations, k, c);
    var t := Next(m0, env, maxIterations, k, c);
    hide Next;
    if OnTheWay(m, t.at, i) {
      DiligentFinishes(m, maxIterations, t.at, t.config, i);
    } else {
      DiligentUnpaused(m, maxIterations, t.at, t.config);
    }
  }

  /** A pause after evaluate_convergence makes a run forget that it converged: with handlers that call
      for convergence there, the whole run ends otherwise than without the pauses. */
  lemma ConvergenceIsLost(m: Loop, maxIterations: nat, i: nat)
    requires PausedConvergence(m, i) && 1 <= maxIterations
    ensures WellBehaved(m, Diligent(m))
    ensures var r := WholeRun(m, Diligent(m), maxIterations); r.ending == Raised || r.config.project.stopReason.Some?
    ensures var r0 := WholeRun(m.WithoutPauses(), Diligent(m), maxIterations); r0.ending == Finished && r0.config.project.stopReason.None?
  {
    var env, m0, k, c := Diligent(m), m.WithoutPauses(), Start(FRESH), Config(FRESH, []);
    DiligentBehaves(m);
    DiligentPaused(m, maxIterations, k, c);
    DiligentFinishes(m, maxIterations, k, c, i);
    hide Exec;
    hide Diligent;
  }

  /** Where pauses can be taken at all, whole runs are the same with and without them exactly when no
      pause follows evaluate_convergence inside the iterations. */
  lemma TransparentExactlyWhen(m: Loop, maxIterations: nat)
    requires Pausable(m) && 1 <= maxIterations
    ensures Transparent(m, maxIterations) <==> NoConvergencePause(m)
  {
    if NoConvergencePause(m) {
      forall env | WellBehaved(m, env)
        ensures Unchanged(WholeRun(m, env, maxIterations), WholeRun(m.WithoutPauses(), env, maxIterations))
      {
        PausesAreTransparent(m, env, maxIterations, Start(FRESH), Config(FRESH, []), Config(FRESH, []));
      }
    } else {
      var i :| 0 <= i < |m.perIteration| && m.perIteration[i].step == EvaluateConvergence && m.perIteration[i].pauseAfter;
      ConvergenceIsLost(m, maxIterations, i);
      hide WholeRun;
      assert !Unchanged(WholeRun(m, Diligent(m), maxIterations), WholeRun(m.WithoutPauses(), Diligent(m), maxIterations));
    }
  }

  /** Wherever a run visits a step with a declared pause whose state may not move to Paused, it raises,
      unless the handler itself refuses or pauses. */
  lemma UnpausableRaises(m: Loop, env: Environment, maxIterations: nat, k: Control, c: Config)
    requires WellBehaved(m, env) && k.index < |m.Steps(k.phase)| && (k.phase == PerIteration ==> k.iteration <= maxIterations)
    requires var spec := m.Steps(k.phase)[k.index]; spec.pauseAfter && !Allowed(TargetState(spec.step), Paused)
    ensures var t := Next(m, env, maxIterations, k, c);
      && t.Halt?
      && (t.run.ending == Raised ||
            (t.run.ending == Yielded && var e := env.handle(c.journal + [k.Here()], c.project.state); e.state == Paused || e.refused))
  {
    var spec := m.Steps(k.phase)[k.index];
    assert LeavesTarget(env, spec, c.journal + [k.Here()], c.project.state);
    assert spec.step == WriteReports;
  }

  /** A completed project stays completed: running or resuming it again executes nothing. */
  lemma {:induction false} CompletedIsAbsorbing(m: Loop, env: Environment, maxIterations: nat, k: Control, c: Config)
    requires Exec(m, env, maxIterations, k, c).ending == Finished
    ensures var c1 := Exec(m, env, maxIterations, k, c).config;
      && Start(c1.project).phase == Done
      && RunOnce(m, env, maxIterations, c1) == Outcome(Finished, c1)
      && Resumed(m, c1) == c1
    decreases Rank(k.phase), Left(maxIterations + 1, k.iteration), Left(|m.Steps(k.phase)|, k.index)
  {
    match Next(m, env, maxIterations, k, c)
    case Halt(_) =>
    case Go(k1, c1) => CompletedIsAbsorbing(m, env, maxIterations, k1, c1);
  }
}
