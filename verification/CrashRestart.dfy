/** Crashing and running again never skips a declared step, and visits again exactly the steps
    that were interrupted, each at once. */
module CrashRestart {
  import opened Options
  import opened ProjectStates
  import opened Manifests
  import opened LoopSemantics

  /** What validation guarantees of every manifest: setup and the iterations declare steps,
      and at least one iteration is allowed. */
  predicate Declared(m: Loop, maxIterations: nat) {
    m.setup != [] && m.perIteration != [] && 1 <= maxIterations
  }

  predicate IsLast(m: Loop, a: Position) {
    a.index + 1 == |m.Steps(a.phase)|
  }

  /** The iterations end behind their last step, or behind evaluate_convergence. */
  predicate MayEnd(m: Loop, a: Position) {
    || IsLast(m, a)
    || (a.index < |m.perIteration| && m.perIteration[a.index].step == EvaluateConvergence)
  }

  /** Visit b comes right after visit a: the next declared step, or the first step of the next
      phase or iteration once the current one has run to its end. */
  predicate Follows(m: Loop, maxIterations: nat, a: Position, b: Position) {
    || (b == a.(index := a.index + 1))
    || (a.phase == Setup && IsLast(m, a) && b == Position(PerIteration, 0, 1))
    || (a.phase == PerIteration && IsLast(m, a) && a.iteration < maxIterations && b == Position(PerIteration, 0, a.iteration + 1))
    || (a.phase == PerIteration && MayEnd(m, a) && b == Position(Synthesis, 0, a.iteration))
  }

  /** The journal starts at the first step, and each later visit repeats or follows the one before. */
  predicate NothingSkipped(m: Loop, maxIterations: nat, journal: seq<Position>) {
    && (journal != [] ==> journal[0] == Position(Setup, 0, 0))
    && forall i :: 1 <= i < |journal| ==> journal[i] == journal[i - 1] || Follows(m, maxIterations, journal[i - 1], journal[i])
  }

  function Repeats(journal: seq<Position>): nat {
    if |journal| < 2 then 0
    else Repeats(journal[..|journal| - 1]) + if journal[|journal| - 1] == journal[|journal| - 2] then 1 else 0
  }

  /** The visit was followed by another one to the same step. */
  predicate Again(journal: seq<Position>, i: nat) {
    i + 1 < |journal| && journal[i + 1] == journal[i]
  }

  /** The journal ends with the last declared step: of the synthesis, or of the iterations where
      no synthesis is declared. */
  predicate Complete(m: Loop, journal: seq<Position>) {
    && journal != []
    && var a := journal[|journal| - 1];
       if m.synthesis != [] then a.phase == Synthesis && IsLast(m, a) else a.phase == PerIteration && MayEnd(m, a)
  }

  /** The journal grew; of its old visits only the last may have been repeated in doing so. */
  ghost predicate Grown(journal: seq<Position>, journal1: seq<Position>, redone: nat) {
    && journal <= journal1
    && forall i: nat :: Again(journal1, i) <==> Again(journal, i) || (redone == 1 && i + 1 == |journal|)
  }

  /** A visit at this point of the journal would skip nothing. */
  predicate Due(m: Loop, maxIterations: nat, journal: seq<Position>, a: Position) {
    if journal == [] then a == Position(Setup, 0, 0)
    else Follows(m, maxIterations, journal[|journal| - 1], a)
  }

  predicate AtLast(journal: seq<Position>, a: Position) {
    journal != [] && journal[|journal| - 1] == a
  }

  /** Where the control stands relative to the journal: at a step that is due, or was interrupted,
      or behind the last step of a phase. */
  predicate InStep(m: Loop, maxIterations: nat, k: Control, c: Config) {
    && NothingSkipped(m, maxIterations, c.journal)
    && k.index <= |m.Steps(k.phase)|
    && (k.phase == Setup ==> k.iteration == 1)
    && (k.phase == PerIteration ==> 1 <= k.iteration == c.project.currentIteration <= maxIterations)
    && (k.phase == Synthesis ==> k.iteration == c.project.currentIteration)
    && (if k.index < |m.Steps(k.phase)| then Due(m, maxIterations, c.journal, k.Here()) || AtLast(c.journal, k.Here())
        else if k.phase == Done then Complete(m, c.journal)
        else if k.index == 0 then k.phase == Synthesis && Due(m, maxIterations, c.journal, k.Here())
        else AtLast(c.journal, k.(index := k.index - 1).Here()))
  }

  function Result(t: Turn): Config {
    match t case Go(_, c1) => c1 case Halt(r) => r.config
  }

  /** A visit appends its own position, and the saved cursor is at that position. */
  lemma VisitRecords(m: Loop, env: Environment, k: Control, c: Config)
    requires k.index < |m.Steps(k.phase)|
    ensures var t := VisitStep(m, env, k, c);
      && Result(t).journal == c.journal + [k.Here()]
      && Result(t).project.currentIteration == c.project.currentIteration
      && (t.Go? ==> t.at == k.(index := k.index + 1) || (k.phase == PerIteration && MayEnd(m, k.Here()) && t.at == Control(Synthesis, 0, k.iteration)))
      && (t.Halt? ==>
            && t.run.ending != Finished
            && var cur := t.run.config.project.cursor;
               cur.At? && Position(cur.phase, cur.stepIndex, cur.iteration) == k.Here() && (cur.pendingPause <==> t.run.ending == Yielded))
  {
  }

  lemma JournalGrows(m: Loop, maxIterations: nat, journal: seq<Position>, a: Position)
    requires NothingSkipped(m, maxIterations, journal)
    requires Due(m, maxIterations, journal, a) || AtLast(journal, a)
    ensures NothingSkipped(m, maxIterations, journal + [a])
    ensures Repeats(journal + [a]) == Repeats(journal) + if AtLast(journal, a) then 1 else 0
    ensures Grown(journal, journal + [a], if AtLast(journal, a) then 1 else 0)
  {
    assert (journal + [a])[..|journal|] == journal;
  }

  /** One if the control stands at the step that was visited last, to be visited again. */
  function Redone(m: Loop, k: Control, c: Config): nat {
    if k.index < |m.Steps(k.phase)| && AtLast(c.journal, k.Here()) then 1 else 0
  }

  lemma VisitInStep(m: Loop, env: Environment, maxIterations: nat, k: Control, c: Config)
    requires Declared(m, maxIterations) && InStep(m, maxIterations, k, c) && k.index < |m.Steps(k.phase)|
    ensures var t := VisitStep(m, env, k, c);
      && NothingSkipped(m, maxIterations, Result(t).journal)
      && (t.Go? ==> InStep(m, maxIterations, t.at, t.config))
      && Repeats(Result(t).journal) == Repeats(c.journal) + Redone(m, k, c)
      && Grown(c.journal, Result(t).journal, Redone(m, k, c))
      && (t.Go? ==> Redone(m, t.at, t.config) == 0)
  {
    VisitRecords(m, env, k, c);
    JournalGrows(m, maxIterations, c.journal, k.Here());
    hide VisitStep;
    hide NothingSkipped;
    hide Repeats;
  }

  /** A turn keeps the control in step; a visit repeats a step exactly when it was interrupted. */
  lemma TurnInStep(m: Loop, env: Environment, maxIterations: nat, k: Control, c: Config)
    requires Declared(m, maxIterations) && InStep(m, maxIterations, k, c)
    ensures var t := Next(m, env, maxIterations, k, c);
      && NothingSkipped(m, maxIterations, Result(t).journal)
      && (t.Go? ==> InStep(m, maxIterations, t.at, t.config))
      && Repeats(Result(t).journal) == Repeats(c.journal) + Redone(m, k, c)
      && Grown(c.journal, Result(t).journal, Redone(m, k, c))
      && (t.Go? ==> Redone(m, t.at, t.config) == 0)
  {
    hide VisitStep;
    hide NothingSkipped;
    hide Repeats;
    if k.index < |m.Steps(k.phase)| {
      VisitInStep(m, env, maxIterations, k, c);
    }
  }

  /** The persisted project can be run again without skipping anything. */
  predicate Restartable(m: Loop, maxIterations: nat, c: Config) {
    && InStep(m, maxIterations, Start(c.project), Entered(c))
    && (c.project.cursor.At? ==> !c.project.cursor.pendingPause)
    && (c.project.cursor.NoCursor? ==> c.journal == [])
  }

  /** The saved cursor is in the phase of the control point or an earlier one. */
  predicate NotAhead(k: Control, c: Config) {
    c.project.cursor.NoCursor? || Rank(k.phase) <= Rank(c.project.cursor.phase)
  }

  lemma VisitRestartable(m: Loop, env: Environment, maxIterations: nat, k: Control, c: Config)
    requires Declared(m, maxIterations) && InStep(m, maxIterations, k, c) && k.index < |m.Steps(k.phase)|
    ensures var t := VisitStep(m, env, k, c);
      && (t.Go? ==> NotAhead(t.at, t.config))
      && if t.Halt? && t.run.ending == Yielded then
        var c1 := Resumed(m, t.run.config);
        Restartable(m, maxIterations, c1) && Redone(m, Start(c1.project), c1) == 0
      else
        Restartable(m, maxIterations, Result(t))
  {
    var t := VisitStep(m, env, k, c);
    VisitRecords(m, env, k, c);
    JournalGrows(m, maxIterations, c.journal, k.Here());
    assert AtLast(Result(t).journal, k.Here());
    hide NothingSkipped;
    hide CallHandler;
  }

  lemma TurnRestartable(m: Loop, env: Environment, maxIterations: nat, k: Control, c: Config)
    requires Declared(m, maxIterations) && InStep(m, maxIterations, k, c)
    requires Restartable(m, maxIterations, c) && NotAhead(k, c)
    ensures match Next(m, env, maxIterations, k, c)
      case Go(k1, c1) => Restartable(m, maxIterations, c1) && NotAhead(k1, c1)
      case Halt(r) =>
        match r.ending
        case Raised => Restartable(m, maxIterations, r.config)
        case Yielded => var c1 := Resumed(m, r.config); Restartable(m, maxIterations, c1) && Redone(m, Start(c1.project), c1) == 0
        case Finished => Start(r.config.project).phase == Done
  {
    hide NothingSkipped;
    hide StopWhenFires;
    hide Due;
    hide Allowed;
    if k.index < |m.Steps(k.phase)| {
      VisitRestartable(m, env, maxIterations, k, c);
      return;
    }
    hide VisitStep;
    match k.phase
    case Setup =>
    case PerIteration =>
    case Synthesis =>
    case Done =>
  }

  /** The saved cursor is at the step that was visited last, and the next run starts with that step. */
  predicate VisitedLast(m: Loop, c: Config) {
    var cur := c.project.cursor;
    && cur.At? && !cur.pendingPause && cur.stepIndex < |m.Steps(cur.phase)|
    && AtLast(c.journal, Position(cur.phase, cur.stepIndex, cur.iteration))
    && Redone(m, Start(c.project), c) == 1
  }

  /** A visit that raises or goes on leaves the cursor at its own step. */
  lemma VisitIsLast(m: Loop, env: Environment, maxIterations: nat, k: Control, c: Config)
    requires InStep(m, maxIterations, k, c) && k.index < |m.Steps(k.phase)|
    ensures var t := VisitStep(m, env, k, c);
      (t.Halt? && t.run.ending == Yielded) || VisitedLast(m, Result(t))
  {
    hide NothingSkipped;
    VisitRecords(m, env, k, c);
  }

  /** Between two visits the saved cursor stays where the first one left it. */
  lemma TurnIsLast(m: Loop, env: Environment, maxIterations: nat, k: Control, c: Config)
    requires InStep(m, maxIterations, k, c) && NotAhead(k, c)
    ensures var t := Next(m, env, maxIterations, k, c);
      (t.Halt? && t.run.ending != Raised)
      || (if k.index < |m.Steps(k.phase)| then VisitedLast(m, Result(t))
          else
            && Result(t).journal == c.journal
            && Redone(m, Start(Result(t).project), Result(t)) == Redone(m, Start(c.project), c)
            && (VisitedLast(m, c) ==> VisitedLast(m, Result(t))))
  {
    hide NothingSkipped;
    hide StopWhenFires;
    hide Due;
    hide Allowed;
    if k.index < |m.Steps(k.phase)| {
      VisitIsLast(m, env, maxIterations, k, c);
      hide VisitStep;
      hide VisitedLast;
    }
  }

  /** A turn finishes the run only behind the last declared step. */
  lemma TurnCompletes(m: Loop, env: Environment, maxIterations: nat, k: Control, c: Config)
    requires InStep(m, maxIterations, k, c)
    ensures var t := Next(m, env, maxIterations, k, c);
      t.Halt? && t.run.ending == Finished ==> Complete(m, t.run.config.journal)
  {
    hide NothingSkipped;
    if k.index < |m.Steps(k.phase)| {
      VisitRecords(m, env, k, c);
      hide VisitStep;
    }
  }

  /** How a run of a restartable project leaves it: a run that raises after a visit leaves the cursor at
      the step it interrupted, one that yields is resumed behind the paused step, and one that
      finishes has visited the last declared step. */
  predicate WellEnded(m: Loop, maxIterations: nat, c: Config, r: Outcome) {
    match r.ending
    case Raised =>
      && Restartable(m, maxIterations, r.config)
      && (if |c.journal| < |r.config.journal| || VisitedLast(m, c) then VisitedLast(m, r.config)
          else Redone(m, Start(r.config.project), r.config) == Redone(m, Start(c.project), c))
    case Yielded => var c1 := Resumed(m, r.config); Restartable(m, maxIterations, c1) && Redone(m, Start(c1.project), c1) == 0
    case Finished => Start(r.config.project).phase == Done && Complete(m, r.config.journal)
  }

  lemma EndsNow(m: Loop, env: Environment, maxIterations: nat, k: Control, c: Config)
    requires Declared(m, maxIterations) && InStep(m, maxIterations, k, c)
    requires Restartable(m, maxIterations, c) && NotAhead(k, c)
    ensures var t := Next(m, env, maxIterations, k, c);
      t.Halt? ==> WellEnded(m, maxIterations, c, t.run)
  {
    TurnRestartable(m, env, maxIterations, k, c);
    TurnIsLast(m, env, maxIterations, k, c);
    TurnCompletes(m, env, maxIterations, k, c);
    hide Next;
    hide InStep;
    hide Restartable;
    hide VisitedLast;
    hide Redone;
    hide Complete;
  }

  /** A turn that goes on hands the end of the run down to the rest of it. */
  lemma EndsLater(m: Loop, env: Environment, maxIterations: nat, k: Control, c: Config, r: Outcome)
    requires InStep(m, maxIterations, k, c) && NotAhead(k, c)
    requires var t := Next(m, env, maxIterations, k, c);
      t.Go? && c.journal <= t.config.journal <= r.config.journal && WellEnded(m, maxIterations, t.config, r)
    ensures WellEnded(m, maxIterations, c, r)
  {
    TurnIsLast(m, env, maxIterations, k, c);
    hide InStep;
    hide Next;
    hide VisitedLast;
    hide Redone;
  }

  /** One run of a restartable project. */
  lemma {:induction false} RunInStep(m: Loop, env: Environment, maxIterations: nat, k: Control, c: Config)
    requires Declared(m, maxIterations) && InStep(m, maxIterations, k, c)
    requires Restartable(m, maxIterations, c) && NotAhead(k, c)
    ensures var r := Exec(m, env, maxIterations, k, c);
      && NothingSkipped(m, maxIterations, r.config.journal)
      && Repeats(r.config.journal) == Repeats(c.journal) + Redone(m, k, c)
      && Grown(c.journal, r.config.journal, Redone(m, k, c))
      && WellEnded(m, maxIterations, c, r)
    decreases Rank(k.phase), Left(maxIterations + 1, k.iteration), Left(|m.Steps(k.phase)|, k.index)
  {
    hide InStep;
    hide Restartable;
    hide NotAhead;
    hide NothingSkipped;
    hide Repeats;
    hide WellEnded;
    TurnInStep(m, env, maxIterations, k, c);
    TurnRestartable(m, env, maxIterations, k, c);
    match Next(m, env, maxIterations, k, c)
    case Halt(r) =>
      EndsNow(m, env, maxIterations, k, c);
      hide Next;
    case Go(k1, c1) =>
      RunInStep(m, env, maxIterations, k1, c1);
      EndsLater(m, env, maxIterations, k, c, Exec(m, env, maxIterations, k1, c1));
      hide Next;
  }

  /** What may have been persisted of a project besides its cursor when its process died. */
  datatype Remains = Remains(state: ProjectState, stopReason: Option<StopReason>, gatePending: Option<string>, approvedGates: seq<string>)

  function Reloaded(c: Config, remains: Remains): Config {
    c.(project := c.project.(state := remains.state, stopReason := remains.stopReason,
                             gatePending := remains.gatePending, approvedGates := remains.approvedGates))
  }

  /** What happened so far; `interrupted` are the places in the journal of the visits a crash came after. */
  datatype History = History(config: Config, crashes: nat, interrupted: seq<nat>, finished: bool)

  /** One more run: if it yields it is resumed, if it crashes it is reloaded. */
  function AfterRun(m: Loop, env: Environment, maxIterations: nat, h: History, remains: Remains): History {
    if h.finished then h
    else
      var r := RunOnce(m, env, maxIterations, h.config);
      var n := |r.config.journal|;
      match r.ending
      case Finished => h.(config := r.config, finished := true)
      case Yielded => h.(config := Resumed(m, r.config))
      case Raised =>
        History(Reloaded(r.config, remains), h.crashes + 1,
                if |h.config.journal| < n then h.interrupted + [n - 1] else h.interrupted, false)
  }

  function Session(m: Loop, env: Environment, maxIterations: nat, runs: seq<Remains>): History {
    if runs == [] then History(Config(FRESH, []), 0, [], false)
    else AfterRun(m, env, maxIterations, Session(m, env, maxIterations, runs[..|runs| - 1]), runs[|runs| - 1])
  }

  /** The interrupted visits are exactly those followed by another visit to the same step, which the
      last one is still to be if the next run starts with it. */
  ghost predicate RunAgain(interrupted: seq<nat>, journal: seq<Position>, redone: nat) {
    && Repeats(journal) + redone == |interrupted|
    && forall i: nat :: i in interrupted <==> Again(journal, i) || (redone == 1 && i + 1 == |journal|)
  }

  /** Nothing was skipped so far, exactly the interrupted steps are visited again, and a finished
      session has come to the last declared step. */
  ghost predicate Sound(m: Loop, maxIterations: nat, h: History) {
    && NothingSkipped(m, maxIterations, h.config.journal)
    && |h.interrupted| <= h.crashes
    && RunAgain(h.interrupted, h.config.journal, Redone(m, Start(h.config.project), h.config))
    && (if h.finished then Complete(m, h.config.journal) else Restartable(m, maxIterations, h.config))
  }

  lemma ReloadInStep(m: Loop, maxIterations: nat, c: Config, remains: Remains)
    requires Restartable(m, maxIterations, c)
    ensures Restartable(m, maxIterations, Reloaded(c, remains))
    ensures Redone(m, Start(Reloaded(c, remains).project), Reloaded(c, remains)) == Redone(m, Start(c.project), c)
  {
  }

  lemma EnteredSame(m: Loop, maxIterations: nat, c: Config)
    requires Restartable(m, maxIterations, c)
    ensures var c1 := Entered(c);
      && Restartable(m, maxIterations, c1) && NotAhead(Start(c.project), c1) && c1.journal == c.journal
      && Start(c1.project) == Start(c.project)
      && Redone(m, Start(c.project), c1) == Redone(m, Start(c.project), c)
  {
    hide NothingSkipped;
  }

  /** The interrupted step is the one repeated; a crash behind a visit leaves that visit to be repeated. */
  lemma AgainGrows(interrupted: seq<nat>, journal: seq<Position>, journal1: seq<Position>, redone: nat)
    requires RunAgain(interrupted, journal, redone) && Grown(journal, journal1, redone)
    requires Repeats(journal1) == Repeats(journal) + redone
    ensures RunAgain(interrupted, journal1, 0)
    ensures journal == journal1 ==> redone == 0
    ensures |journal| < |journal1| ==> RunAgain(interrupted + [|journal1| - 1], journal1, 1)
  {
    hide Repeats;
    assert forall i: nat :: Again(journal1, i) ==> i + 1 < |journal1|;
    hide Again;
    if |journal| < |journal1| {
      forall i: nat
        ensures i in interrupted + [|journal1| - 1] <==> Again(journal1, i) || i + 1 == |journal1|
      {
        assert i in interrupted <==> Again(journal, i) || (redone == 1 && i + 1 == |journal|);
      }
    }
  }

  lemma AfterRunSound(m: Loop, env: Environment, maxIterations: nat, h: History, remains: Remains)
    requires Declared(m, maxIterations) && Sound(m, maxIterations, h)
    ensures Sound(m, maxIterations, AfterRun(m, env, maxIterations, h, remains))
  {
    if h.finished {
      return;
    }
    var k, r := Start(h.config.project), RunOnce(m, env, maxIterations, h.config);
    EnteredSame(m, maxIterations, h.config);
    RunInStep(m, env, maxIterations, k, Entered(h.config));
    AgainGrows(h.interrupted, h.config.journal, r.config.journal, Redone(m, k, h.config));
    if r.ending == Raised {
      ReloadInStep(m, maxIterations, r.config, remains);
    }
    hide Exec;
    hide Restartable;
    hide NothingSkipped;
    hide Repeats;
    hide RunAgain;
    hide Complete;
    hide Entered;
    hide NotAhead;
    hide Grown;
    hide AtLast;
    match r.ending
    case Raised =>
    case Yielded =>
    case Finished =>
  }

  /** Crash restart: over any number of runs, pauses, crashes and reloads no declared step is skipped,
      every interrupted step is run again at once and no other is, and what is finished was run
      to the last declared step. */
  lemma {:induction false} CrashesSkipNothing(m: Loop, env: Environment, maxIterations: nat, runs: seq<Remains>)
    requires Declared(m, maxIterations)
    ensures Sound(m, maxIterations, Session(m, env, maxIterations, runs))
  {
    hide Sound;
    if runs != [] {
      CrashesSkipNothing(m, env, maxIterations, runs[..|runs| - 1]);
      AfterRunSound(m, env, maxIterations, Session(m, env, maxIterations, runs[..|runs| - 1]), runs[|runs| - 1]);
    } else {
      FreshSound(m, env, maxIterations);
    }
  }

  lemma FreshSound(m: Loop, env: Environment, maxIterations: nat)
    requires Declared(m, maxIterations)
    ensures Sound(m, maxIterations, Session(m, env, maxIterations, []))
  {
  }
}
