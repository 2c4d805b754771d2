/** Why a declared loop stops: a condition that holds at the end of an iteration ends the iterations,
    and the stop reason of a finished run says exactly what ended them. */
module StopReasons {
  import opened Options
  import opened ProjectStates
  import opened Manifests
  import opened LoopSemantics

  /** Metrics are given for the visits so far, and a declared condition holds of them. */
  predicate ConditionHolds(m: Loop, env: Environment, journal: seq<Position>, iteration: nat) {
    var metrics := env.metrics(journal, iteration);
    metrics.Some? && exists i :: 0 <= i < |m.stopWhen| && Fires(m.stopWhen[i], metrics.value, iteration)
  }

  predicate EndsIteration(m: Loop, p: Position) {
    p.phase == PerIteration && p.index + 1 == |m.perIteration|
  }

  // ------------------------------------------------------------------ conditions end the iterations

  /** A run only adds to the journal. */
  lemma {:induction false} JournalGrows(m: Loop, env: Environment, maxIterations: nat, k: Control, c: Config)
    ensures c.journal <= Exec(m, env, maxIterations, k, c).config.journal
    decreases Rank(k.phase), Left(maxIterations + 1, k.iteration), Left(|m.Steps(k.phase)|, k.index)
  {
    TurnAdds(m, env, maxIterations, k, c);
    match Next(m, env, maxIterations, k, c)
    case Halt(_) =>
    case Go(k1: Control, c1: Config) => JournalGrows(m, env, maxIterations, k1, c1);
  }

  function After(t: Turn): Config {
    match t case Go(_, c1) => c1 case Halt(r) => r.config
  }

  predicate Visits(m: Loop, maxIterations: nat, k: Control) {
    k.index < |m.Steps(k.phase)| && !(k.phase == PerIteration && maxIterations < k.iteration)
  }

  lemma TurnAdds(m: Loop, env: Environment, maxIterations: nat, k: Control, c: Config)
    ensures After(Next(m, env, maxIterations, k, c)).journal
      == c.journal + if Visits(m, maxIterations, k) then [k.Here()] else []
  {
    hide StopWhenFires;
    hide Legal;
  }

  /** Where a turn goes: forward in the phase, or on to the next one. */
  lemma TurnGoes(m: Loop, env: Environment, maxIterations: nat, k: Control, c: Config)
    ensures var t := Next(m, env, maxIterations, k, c);
      && (t.Go? && Rank(k.phase) <= 1 ==> Visits(m, maxIterations, k) && t.at == k.(index := k.index + 1))
      && (t.Go? && k.phase == PerIteration && Visits(m, maxIterations, k) ==>
            t.at == k.(index := k.index + 1) || t.at == Control(Synthesis, 0, k.iteration))
  {
    hide StopWhenFires;
    hide Legal;
  }

  predicate OnlySynthesis(journal: seq<Position>, from: nat, iteration: nat) {
    forall j :: from <= j < |journal| ==> journal[j].phase != PerIteration && journal[j].phase != Setup && journal[j].iteration == iteration
  }

  lemma {:induction false} SynthesisOnly(m: Loop, env: Environment, maxIterations: nat, k: Control, c: Config)
    requires Rank(k.phase) <= 1
    ensures OnlySynthesis(Exec(m, env, maxIterations, k, c).config.journal, |c.journal|, k.iteration)
    decreases Left(|m.Steps(k.phase)|, k.index)
  {
    TurnAdds(m, env, maxIterations, k, c);
    TurnGoes(m, env, maxIterations, k, c);
    match Next(m, env, maxIterations, k, c)
    case Halt(_) =>
    case Go(k1: Control, c1: Config) =>
      SynthesisOnly(m, env, maxIterations, k1, c1);
      JournalGrows(m, env, maxIterations, k1, c1);
  }

  /** At the end of an iteration a condition that holds leaves nothing but the synthesis. */
  lemma ConditionLeaves(m: Loop, env: Environment, maxIterations: nat, k: Control, c: Config)
    requires k.phase == PerIteration && k.index == |m.perIteration| && ConditionHolds(m, env, c.journal, k.iteration)
    ensures OnlySynthesis(Exec(m, env, maxIterations, k, c).config.journal, |c.journal|, k.iteration)
  {
    assert maxIterations < k.iteration || StopWhenFires(m, env, c, k.iteration);
    TurnAdds(m, env, maxIterations, k, c);
    match Next(m, env, maxIterations, k, c)
    case Halt(_) =>
    case Go(k1: Control, c1: Config) => SynthesisOnly(m, env, maxIterations, k1, c1);
  }

  /** Whenever a declared condition holds of the metrics given for the visits up to the end of an
      iteration, the run makes no visit of a later iteration; all it still does is the synthesis. */
  lemma {:induction false} ConditionsStop(m: Loop, env: Environment, maxIterations: nat, k: Control, c: Config, i: nat)
    requires var journal := Exec(m, env, maxIterations, k, c).config.journal;
      |c.journal| <= i < |journal| && EndsIteration(m, journal[i]) && ConditionHolds(m, env, journal[..i + 1], journal[i].iteration)
    ensures var journal := Exec(m, env, maxIterations, k, c).config.journal;
      OnlySynthesis(journal, i + 1, journal[i].iteration)
    decreases Rank(k.phase), Left(maxIterations + 1, k.iteration), Left(|m.Steps(k.phase)|, k.index)
  {
    var journal := Exec(m, env, maxIterations, k, c).config.journal;
    TurnAdds(m, env, maxIterations, k, c);
    TurnGoes(m, env, maxIterations, k, c);
    match Next(m, env, maxIterations, k, c)
    case Halt(_) =>
    case Go(k1: Control, c1: Config) =>
      JournalGrows(m, env, maxIterations, k1, c1);
      if |c1.journal| <= i {
        ConditionsStop(m, env, maxIterations, k1, c1, i);
      } else {
        assert journal[i] == k.Here() && journal[..i + 1] == c1.journal;
        hide ConditionHolds;
        if k1.phase == PerIteration {
          ConditionLeaves(m, env, maxIterations, k1, c1);
        } else {
          SynthesisOnly(m, env, maxIterations, k1, c1);
        }
      }
  }

  // ------------------------------------------------------------------ the stop reason

  /** Something holds at every control point that a run comes to. */
  predicate Always(m: Loop, env: Environment, maxIterations: nat, k: Control, c: Config, p: (Control, Config) -> bool)
    decreases Rank(k.phase), Left(maxIterations + 1, k.iteration), Left(|m.Steps(k.phase)|, k.index)
  {
    p(k, c) && match Next(m, env, maxIterations, k, c)
               case Go(k1: Control, c1: Config) => Always(m, env, maxIterations, k1, c1, p)
               case Halt(_) => true
  }

  /** The reason the handler of the next step sets, if any. */
  function Given(m: Loop, env: Environment, maxIterations: nat, k: Control, c: Config): Option<StopReason> {
    if Visits(m, maxIterations, k) && env.handles(m.Steps(k.phase)[k.index].step) then
      env.handle(c.journal + [k.Here()], c.project.state).stopReason
    else None
  }

  /** No handler sets a reason. */
  predicate Reasonless(m: Loop, env: Environment, maxIterations: nat, k: Control, c: Config) {
    Always(m, env, maxIterations, k, c, (k1: Control, c1: Config) => Given(m, env, maxIterations, k1, c1).None?)
  }

  /** No handler sets this reason. */
  predicate NotGiven(m: Loop, env: Environment, maxIterations: nat, k: Control, c: Config, reason: StopReason) {
    Always(m, env, maxIterations, k, c, (k1: Control, c1: Config) => Given(m, env, maxIterations, k1, c1) != Some(reason))
  }

  predicate AtEnd(m: Loop, maxIterations: nat, k: Control) {
    k.phase == PerIteration && |m.perIteration| <= k.index && k.iteration <= maxIterations
  }

  /** No condition holds at the end of any iteration that is carried out. */
  predicate NeverMet(m: Loop, env: Environment, maxIterations: nat, k: Control, c: Config) {
    Always(m, env, maxIterations, k, c, (k1: Control, c1: Config) => AtEnd(m, maxIterations, k1) ==> !ConditionHolds(m, env, c1.journal, k1.iteration))
  }

  /** The handlers leave a converged project at the end of an iteration, or evaluate_convergence says no. */
  predicate Converges(m: Loop, env: Environment, maxIterations: nat, k: Control, c: Config) {
    || (AtEnd(m, maxIterations, k) && c.project.state == Converged)
    || (&& k.phase == PerIteration && Visits(m, maxIterations, k)
        && m.perIteration[k.index].step == EvaluateConvergence && env.handles(EvaluateConvergence)
        && env.handle(c.journal + [k.Here()], c.project.state).refused)
  }

  predicate NeverConverges(m: Loop, env: Environment, maxIterations: nat, k: Control, c: Config) {
    Always(m, env, maxIterations, k, c, (k1: Control, c1: Config) => !Converges(m, env, maxIterations, k1, c1))
  }

  /** The last iteration allowed is carried out to its end. */
  predicate ComesToLast(m: Loop, env: Environment, maxIterations: nat, k: Control, c: Config) {
    !Always(m, env, maxIterations, k, c, (k1: Control, c1: Config) => !(AtEnd(m, maxIterations, k1) && k1.iteration == maxIterations))
  }

  /** The first of two reasons, if there is one. */
  function Rather(a: Option<StopReason>, b: Option<StopReason>): Option<StopReason> {
    if a.Some? then a else b
  }

  /** A run that goes on, by the kind of turn: what becomes of the stop reason, and where the run goes. */
  lemma VisitReason(m: Loop, env: Environment, maxIterations: nat, k: Control, c: Config)
    requires Visits(m, maxIterations, k)
    ensures var t := Next(m, env, maxIterations, k, c);
      t.Go? ==>
        && t.config.project.stopReason == Rather(Given(m, env, maxIterations, k, c), c.project.stopReason)
        && (t.at.phase == Synthesis && k.phase == PerIteration <==> Converges(m, env, maxIterations, k, c))
  {
    hide Legal;
    hide StopWhenFires;
  }

  lemma EndReason(m: Loop, env: Environment, maxIterations: nat, k: Control, c: Config)
    requires AtEnd(m, maxIterations, k)
    ensures var t := Next(m, env, maxIterations, k, c);
      t.Go? ==>
        if ConditionHolds(m, env, c.journal, k.iteration) then
          t.at.phase == Synthesis && t.config.project.stopReason == Rather(c.project.stopReason, Some(SaturationReached))
        else if c.project.state == Converged then
          t.at.phase == Synthesis && t.config.project.stopReason == c.project.stopReason
        else if k.iteration == maxIterations then
          t.at.phase == Synthesis && t.config.project.stopReason == Rather(c.project.stopReason, Some(StopReason.MaxIterations))
        else
          t.at.phase == PerIteration && t.config.project.stopReason == c.project.stopReason
  {
    hide Legal;
    assert StopWhenFires(m, env, c, k.iteration) <==> ConditionHolds(m, env, c.journal, k.iteration);
    hide StopWhenFires;
    hide ConditionHolds;
  }

  lemma OtherReason(m: Loop, env: Environment, maxIterations: nat, k: Control, c: Config)
    requires !Visits(m, maxIterations, k) && !AtEnd(m, maxIterations, k)
    ensures var t := Next(m, env, maxIterations, k, c);
      && After(t).project.stopReason == c.project.stopReason
      && (t.Go? && k.phase == PerIteration ==> t.at.phase == Synthesis)
  {
    hide Legal;
    hide StopWhenFires;
  }

  /** In the synthesis only handlers set reasons. */
  lemma {:induction false} SynthesisReason(m: Loop, env: Environment, maxIterations: nat, k: Control, c: Config, reason: StopReason)
    requires Rank(k.phase) <= 1 && NotGiven(m, env, maxIterations, k, c, reason)
    requires Exec(m, env, maxIterations, k, c).ending == Finished
    ensures Exec(m, env, maxIterations, k, c).config.project.stopReason == Some(reason)
      <==> c.project.stopReason == Some(reason) && Reasonless(m, env, maxIterations, k, c)
    ensures NeverMet(m, env, maxIterations, k, c) && NeverConverges(m, env, maxIterations, k, c)
    ensures !ComesToLast(m, env, maxIterations, k, c)
    decreases Left(|m.Steps(k.phase)|, k.index)
  {
    TurnGoes(m, env, maxIterations, k, c);
    if Visits(m, maxIterations, k) {
      VisitReason(m, env, maxIterations, k, c);
    } else {
      OtherReason(m, env, maxIterations, k, c);
    }
    hide Given;
    hide ConditionHolds;
    match Next(m, env, maxIterations, k, c)
    case Halt(_) =>
    case Go(k1, c1) => SynthesisReason(m, env, maxIterations, k1, c1, reason);
  }

  /** The run uses up its iterations: no handler sets a reason or converges, no condition holds at the end
      of any iteration, and the last iteration allowed is carried out. */
  predicate RunsOut(m: Loop, env: Environment, maxIterations: nat, k: Control, c: Config) {
    && Reasonless(m, env, maxIterations, k, c)
    && NeverMet(m, env, maxIterations, k, c)
    && NeverConverges(m, env, maxIterations, k, c)
    && ComesToLast(m, env, maxIterations, k, c)
  }

  /** A finished run that began without a reason, and whose handlers do not set this one themselves, ends
      with MAX_ITERATIONS exactly when it uses up its iterations. */
  lemma {:induction false} MaxIterationsExactlyWhen(m: Loop, env: Environment, maxIterations: nat, k: Control, c: Config)
    requires Exec(m, env, maxIterations, k, c).ending == Finished
    requires NotGiven(m, env, maxIterations, k, c, StopReason.MaxIterations) && c.project.stopReason != Some(StopReason.MaxIterations)
    ensures Exec(m, env, maxIterations, k, c).config.project.stopReason == Some(StopReason.MaxIterations)
      <==> c.project.stopReason == None && RunsOut(m, env, maxIterations, k, c)
    decreases Rank(k.phase), Left(maxIterations + 1, k.iteration), Left(|m.Steps(k.phase)|, k.index)
  {
    if Rank(k.phase) <= 1 {
      SynthesisReason(m, env, maxIterations, k, c, StopReason.MaxIterations);
      return;
    }
    if Visits(m, maxIterations, k) {
      VisitReason(m, env, maxIterations, k, c);
    } else if AtEnd(m, maxIterations, k) {
      EndReason(m, env, maxIterations, k, c);
    } else {
      OtherReason(m, env, maxIterations, k, c);
    }
    hide Given;
    hide ConditionHolds;
    match Next(m, env, maxIterations, k, c)
    case Halt(_) =>
    case Go(k1, c1) =>
      if Rank(k1.phase) <= 1 {
        SynthesisReason(m, env, maxIterations, k1, c1, StopReason.MaxIterations);
      } else {
        MaxIterationsExactlyWhen(m, env, maxIterations, k1, c1);
      }
  }

  /** A finished run that began without a reason, and whose handlers do not set this one themselves, ends
      with SATURATION_REACHED exactly when no handler sets a reason and a condition holds at the end of an
      iteration. */
  lemma {:induction false} SaturationExactlyWhen(m: Loop, env: Environment, maxIterations: nat, k: Control, c: Config)
    requires Exec(m, env, maxIterations, k, c).ending == Finished
    requires NotGiven(m, env, maxIterations, k, c, SaturationReached) && c.project.stopReason != Some(SaturationReached)
    ensures Exec(m, env, maxIterations, k, c).config.project.stopReason == Some(SaturationReached)
      <==> c.project.stopReason == None && Reasonless(m, env, maxIterations, k, c) && !NeverMet(m, env, maxIterations, k, c)
    decreases Rank(k.phase), Left(maxIterations + 1, k.iteration), Left(|m.Steps(k.phase)|, k.index)
  {
    if Rank(k.phase) <= 1 {
      SynthesisReason(m, env, maxIterations, k, c, SaturationReached);
      return;
    }
    if Visits(m, maxIterations, k) {
      VisitReason(m, env, maxIterations, k, c);
    } else if AtEnd(m, maxIterations, k) {
      EndReason(m, env, maxIterations, k, c);
    } else {
      OtherReason(m, env, maxIterations, k, c);
    }
    hide Given;
    hide ConditionHolds;
    match Next(m, env, maxIterations, k, c)
    case Halt(_) =>
    case Go(k1, c1) =>
      if Rank(k1.phase) <= 1 {
        SynthesisReason(m, env, maxIterations, k1, c1, SaturationReached);
      } else {
        SaturationExactlyWhen(m, env, maxIterations, k1, c1);
      }
  }

  /** Nothing else ends the iterations: a finished run that was neither converged nor met by a condition
      has carried out the last iteration allowed. */
  lemma {:induction false} NothingElseStops(m: Loop, env: Environment, maxIterations: nat, k: Control, c: Config)
    requires Exec(m, env, maxIterations, k, c).ending == Finished
    requires Rank(k.phase) >= 2 && k.iteration <= maxIterations
    requires NeverMet(m, env, maxIterations, k, c) && NeverConverges(m, env, maxIterations, k, c)
    ensures ComesToLast(m, env, maxIterations, k, c)
    decreases Rank(k.phase), Left(maxIterations + 1, k.iteration), Left(|m.Steps(k.phase)|, k.index)
  {
    if Visits(m, maxIterations, k) {
      VisitReason(m, env, maxIterations, k, c);
    } else if AtEnd(m, maxIterations, k) {
      EndReason(m, env, maxIterations, k, c);
    }
    hide Given;
    hide ConditionHolds;
    match Next(m, env, maxIterations, k, c)
    case Halt(_) =>
    case Go(k1, c1) =>
      if Rank(k1.phase) >= 2 {
        NothingElseStops(m, env, maxIterations, k1, c1);
      }
  }
}
