/** Which gate a paused loop waits on, and what resuming it approves: the gate of the declared pause, or
    the one its handler left, and nothing else. */
module RunnerGates {
  import opened Options
  import opened ProjectStates
  import opened Manifests
  import opened LoopSemantics

  /** No handler pauses by itself. */
  ghost predicate Steady(env: Environment) {
    forall journal, state :: var e := env.handle(journal, state); e.state != Paused && !e.refused
  }

  predicate Undeclared(m: Loop) {
    forall phase: Phase, i :: 0 <= i < |m.Steps(phase)| ==> !m.Steps(phase)[i].pauseAfter
  }

  /** A handler names a gate only where it pauses. */
  ghost predicate NamesWhenPausing(env: Environment) {
    forall journal, state :: var e := env.handle(journal, state); e.gatePending.Some? ==> e.state == Paused
  }

  function After(t: Turn): Config {
    match t case Go(_, c1) => c1 case Halt(r) => r.config
  }

  /** A run leaves the approved gates to the user. */
  lemma TurnApprovesNothing(m: Loop, env: Environment, maxIterations: nat, k: Control, c: Config)
    ensures After(Next(m, env, maxIterations, k, c)).project.approvedGates == c.project.approvedGates
  {
    hide StopWhenFires;
    hide Legal;
  }

  lemma {:induction false} RunApprovesNothing(m: Loop, env: Environment, maxIterations: nat, k: Control, c: Config)
    ensures Exec(m, env, maxIterations, k, c).config.project.approvedGates == c.project.approvedGates
    decreases Rank(k.phase), Left(maxIterations + 1, k.iteration), Left(|m.Steps(k.phase)|, k.index)
  {
    TurnApprovesNothing(m, env, maxIterations, k, c);
    match Next(m, env, maxIterations, k, c)
    case Halt(_) =>
    case Go(k1, c1) => RunApprovesNothing(m, env, maxIterations, k1, c1);
  }

  /** The gate of the pause declared for the step visited last. */
  function DeclaredGate(m: Loop, journal: seq<Position>): Option<string> {
    if journal == [] then None
    else
      var p := journal[|journal| - 1];
      if p.index < |m.Steps(p.phase)| && m.Steps(p.phase)[p.index].pauseAfter then Some(m.Steps(p.phase)[p.index].GateName()) else None
  }

  /** Resuming a run that paused approves the gate, and leaves none pending. */
  predicate Approves(m: Loop, r: Outcome, gate: Option<string>) {
    var p := Resumed(m, r.config).project;
    p.approvedGates == Approved(r.config.project.approvedGates, gate) && p.gatePending == None
  }

  lemma TurnDeclares(m: Loop, env: Environment, maxIterations: nat, k: Control, c: Config)
    requires Steady(env)
    ensures var t := Next(m, env, maxIterations, k, c);
      t.Halt? && t.run.ending == Yielded ==>
        DeclaredGate(m, t.run.config.journal).Some? && Approves(m, t.run, DeclaredGate(m, t.run.config.journal))
  {
    hide StopWhenFires;
    hide Legal;
    hide Approved;
    var effect := env.handle(c.journal + [k.Here()], c.project.state);
    assert effect.state != Paused && !effect.refused;
  }

  /** A run whose handlers do not pause pauses behind a declared step only, and resuming it approves that
      step's gate. */
  lemma {:induction false} DeclaredPauseApproves(m: Loop, env: Environment, maxIterations: nat, k: Control, c: Config)
    requires Steady(env)
    ensures var r := Exec(m, env, maxIterations, k, c);
      r.ending == Yielded ==> DeclaredGate(m, r.config.journal).Some? && Approves(m, r, DeclaredGate(m, r.config.journal))
    decreases Rank(k.phase), Left(maxIterations + 1, k.iteration), Left(|m.Steps(k.phase)|, k.index)
  {
    TurnDeclares(m, env, maxIterations, k, c);
    match Next(m, env, maxIterations, k, c)
    case Halt(_) =>
    case Go(k1, c1) => DeclaredPauseApproves(m, env, maxIterations, k1, c1);
  }

  /** The handler of the last visit paused, or refused to go on, and left this gate. */
  ghost predicate LeftBehind(env: Environment, journal: seq<Position>, gate: Option<string>) {
    exists state :: var e := env.handle(journal, state); (e.state == Paused || e.refused) && e.gatePending == gate
  }

  lemma TurnLeaves(m: Loop, env: Environment, maxIterations: nat, k: Control, c: Config)
    requires Undeclared(m) && NamesWhenPausing(env) && c.project.gatePending == None
    ensures match Next(m, env, maxIterations, k, c)
      case Go(_, c1) => c1.project.gatePending == None
      case Halt(r) => r.ending == Yielded ==>
        r.config.project.cursor.At? && Approves(m, r, r.config.project.cursor.gate) && LeftBehind(env, r.config.journal, r.config.project.cursor.gate)
  {
    hide StopWhenFires;
    hide Legal;
    hide Approved;
    var effect := env.handle(c.journal + [k.Here()], c.project.state);
    assert effect.gatePending.Some? ==> effect.state == Paused;
    if k.index < |m.Steps(k.phase)| {
      assert !m.Steps(k.phase)[k.index].pauseAfter;
    }
  }

  /** A run without declared pauses pauses only where a handler did, waiting on the gate that the handler
      left, and resuming it approves that gate. */
  lemma {:induction false} HandlerPauseApproves(m: Loop, env: Environment, maxIterations: nat, k: Control, c: Config)
    requires Undeclared(m) && NamesWhenPausing(env) && c.project.gatePending == None
    ensures var r := Exec(m, env, maxIterations, k, c);
      r.ending == Yielded ==>
        r.config.project.cursor.At? && Approves(m, r, r.config.project.cursor.gate) && LeftBehind(env, r.config.journal, r.config.project.cursor.gate)
    decreases Rank(k.phase), Left(maxIterations + 1, k.iteration), Left(|m.Steps(k.phase)|, k.index)
  {
    TurnLeaves(m, env, maxIterations, k, c);
    match Next(m, env, maxIterations, k, c)
    case Halt(_) =>
    case Go(k1, c1) => HandlerPauseApproves(m, env, maxIterations, k1, c1);
  }
}
