/** The loop runner: executes setup, iterations and synthesis over a project record,
    saving a cursor before every step. */
module LoopRunners {
  import opened Options
  import opened ProjectStates
  import opened Manifests
  import opened LoopSemantics

  class LoopRunner {
    const manifest: Loop
    const project: Project
    const environment: Environment
    const maxIterations: nat
    /** The steps visited so far. */
    var journal: seq<Position>

    ghost function Now(): Config
      reads this, project
    {
      Config(project.Value(), journal)
    }

    constructor (manifest: Loop, project: Project, environment: Environment, maxIterations: nat)
      ensures this.manifest == manifest && this.project == project
      ensures this.environment == environment && this.maxIterations == maxIterations
      ensures journal == []
    {
      this.manifest, this.project := manifest, project;
      this.environment, this.maxIterations := environment, maxIterations;
      journal := [];
    }

    method SaveCursor(phase: Phase, index: nat, iteration: nat, pendingPause: bool, gate: Option<string>)
      modifies project`cursor
      ensures Now() == Saved(old(Now()), phase, index, iteration, pendingPause, gate)
    {
      project.cursor := At(phase, index, iteration, pendingPause, gate);
    }

    method PauseAtStep(pos: Position, spec: StepSpec) returns (ending: Ending)
      modifies project
      ensures Outcome(ending, Now()) == PausedAt(old(Now()), pos, spec)
    {
      var gate := spec.GateName();
      project.gatePending := Some(gate);
      var status := project.Transition(Paused);
      if status.Raise? {
        return Raised;
      }
      SaveCursor(pos.phase, pos.index, pos.iteration, true, Some(gate));
      return Yielded;
    }

    /** Advances the cursor past a paused step. */
    method ResumeCursor() returns (status: Status)
      modifies project
      ensures status.Ok?
      ensures Now() == Resumed(manifest, old(Now()))
    {
      var cur := project.cursor;
      if cur.NoCursor? || !cur.pendingPause {
        return Ok;
      }
      var gate := if cur.gate.Some? && cur.gate.value != "" then cur.gate else project.gatePending;
      if gate.Some? && gate.value != "" && gate.value !in project.approvedGates {
        project.approvedGates := project.approvedGates + [gate.value];
      }
      project.gatePending := None;
      var target := ResumeTarget(manifest, cur.phase, cur.stepIndex);
      if project.state == Paused {
        status := project.Transition(target);
        assert status.Ok?;  // every resume target may be reached from Paused
      }
      SaveCursor(cur.phase, cur.stepIndex + 1, cur.iteration, false, None);
      return Ok;
    }

    /** Saves the cursor, records the visit and calls the step's handler, if it has one. */
    method VisitWithHandler(step: Step, pos: Position) returns (signal: Signal)
      modifies this`journal, project
      ensures Handled(signal, Now()) == CallHandler(environment, step, Visited(old(Now()), pos))
      ensures project.currentIteration == old(project.currentIteration)
    {
      SaveCursor(pos.phase, pos.index, pos.iteration, false, None);
      journal := journal + [pos];
      if !environment.handles(step) {
        return Proceed;
      }
      var e := environment.handle(journal, project.state);
      project.state := e.state;
      if e.stopReason.Some? {
        project.stopReason := e.stopReason;
      }
      if e.gatePending.Some? {
        project.gatePending := e.gatePending;
      }
      return if e.raised then Fail else if e.refused then Refuse else Proceed;
    }

    /** What remains to be executed from a control point on. */
    ghost function From(k: Control): Outcome
      reads this, project
    {
      Exec(manifest, environment, maxIterations, k, Now())
    }

    /** Setup: nothing is returned when all its steps have run. */
    method RunSetup(start: nat, ghost it: nat) returns (ended: Option<Ending>)
      modifies this`journal, project
      ensures ended.Some? ==> Outcome(ended.value, Now()) == old(From(Control(Setup, start, it)))
      ensures ended.None? ==>
        Exec(manifest, environment, maxIterations, Control(PerIteration, 0, it), OnIteration(Now(), it)) == old(From(Control(Setup, start, it)))
    {
      var idx := start;
      while idx < |manifest.setup|
        invariant From(Control(Setup, idx, it)) == old(From(Control(Setup, start, it)))
      {
        var spec := manifest.setup[idx];
        var pos := Position(Setup, idx, 0);
        var signal := VisitWithHandler(spec.step, pos);
        if signal == Fail {
          return Some(Raised);
        }
        if environment.handles(spec.step) && (project.state == Paused || signal == Refuse) {
          SaveCursor(Setup, idx, 0, true, project.gatePending);
          return Some(Yielded);
        }
        if spec.pauseAfter {
          var ending := PauseAtStep(pos, spec);
          return Some(ending);
        }
        idx := idx + 1;
      }
      if project.currentIteration == 0 {
        project.currentIteration := 1;
      }
      return None;
    }

    /** One iteration's steps: tells whether evaluate_convergence called for convergence. */
    method RunSteps(start: nat, it: nat) returns (ended: Option<Ending>, converged: bool)
      requires it <= maxIterations && project.currentIteration == it
      modifies this`journal, project
      ensures ended.Some? ==> Outcome(ended.value, Now()) == old(From(Control(PerIteration, start, it)))
      ensures ended.None? ==> project.currentIteration == it
      ensures ended.None? && converged ==> From(Control(Synthesis, 0, it)) == old(From(Control(PerIteration, start, it)))
      ensures ended.None? && !converged ==>
        From(Control(PerIteration, |manifest.perIteration|, it)) == old(From(Control(PerIteration, start, it)))
    {
      hide CallHandler;
      hide StopWhenFires;
      converged := false;
      var idx := start;
      while idx < |manifest.perIteration|
        invariant project.currentIteration == it
        invariant From(Control(PerIteration, idx, it)) == old(From(Control(PerIteration, start, it)))
      {
        var spec := manifest.perIteration[idx];
        var pos := Position(PerIteration, idx, it);
        var signal := VisitWithHandler(spec.step, pos);
        if signal == Fail {
          return Some(Raised), false;
        }
        if environment.handles(spec.step) && project.state == Paused {
          SaveCursor(PerIteration, idx, it, true, project.gatePending);
          return Some(Yielded), false;
        }
        if signal == Refuse && spec.step == EvaluateConvergence {
          converged := true;
        }
        if spec.pauseAfter {
          var ending := PauseAtStep(pos, spec);
          return Some(ending), false;
        }
        if converged {
          return None, true;
        }
        idx := idx + 1;
      }
      assert From(Control(PerIteration, idx, it)) == From(Control(PerIteration, |manifest.perIteration|, it));
      return None, false;
    }

    /** Behind an iteration's last step: stop, or tell that another iteration follows. */
    method EndIteration(it: nat) returns (ended: Option<Ending>, another: bool)
      requires it <= maxIterations && project.currentIteration == it
      modifies project
      ensures ended.Some? ==> Outcome(ended.value, Now()) == old(From(Control(PerIteration, |manifest.perIteration|, it)))
      ensures ended.None? ==> project.currentIteration == it
      ensures ended.None? && another ==> it < maxIterations
      ensures ended.None? && another ==>
        Exec(manifest, environment, maxIterations, Control(PerIteration, 0, it + 1), OnIteration(Now(), it + 1))
        == old(From(Control(PerIteration, |manifest.perIteration|, it)))
      ensures ended.None? && !another ==> From(Control(Synthesis, 0, it)) == old(From(Control(PerIteration, |manifest.perIteration|, it)))
    {
      var metrics := environment.metrics(journal, it);
      if metrics.Some? {
        var matched, _ := EvaluateStopConditions(manifest.stopWhen, metrics.value, it);
        if matched {
          project.stopReason := Or(project.stopReason, SaturationReached);
          var status := project.Transition(Converged);
          return if status.Raise? then Some(Raised) else None, false;
        }
      }
      if project.state == Converged {
        return None, false;
      }
      if maxIterations <= it {
        project.stopReason := Or(project.stopReason, StopReason.MaxIterations);
        var status := project.Transition(Converged);
        return if status.Raise? then Some(Raised) else None, false;
      }
      return None, true;
    }

    /** The iterations: nothing is returned when synthesis is to begin. */
    method RunIterations(start: nat, first: nat) returns (ended: Option<Ending>)
      modifies this`journal, project
      ensures ended.Some? ==>
        Outcome(ended.value, Now()) == Exec(manifest, environment, maxIterations, Control(PerIteration, start, first), OnIteration(old(Now()), first))
      ensures ended.None? ==>
        From(Control(Synthesis, 0, project.currentIteration))
        == Exec(manifest, environment, maxIterations, Control(PerIteration, start, first), OnIteration(old(Now()), first))
    {
      hide VisitStep;
      hide LeaveIterations;
      ghost var whole := Exec(manifest, environment, maxIterations, Control(PerIteration, start, first), OnIteration(Now(), first));
      var it := first;
      project.currentIteration := it;
      var stepStart := start;
      while it <= maxIterations
        invariant project.currentIteration == it
        invariant From(Control(PerIteration, stepStart, it)) == whole
        decreases maxIterations + 1 - it
      {
        project.currentIteration := it;
        var stepped, converged := RunSteps(stepStart, it);
        if stepped.Some? {
          return stepped;
        }
        if converged {
          return None;
        }
        var ended', another := EndIteration(it);
        if ended'.Some? {
          return ended';
        }
        if !another {
          return None;
        }
        it := it + 1;
        stepStart := 0;
        project.currentIteration := it;
      }
      return None;
    }

    method RunSynthesis(start: nat) returns (ended: Option<Ending>)
      modifies this`journal, project
      ensures ended.Some? ==> Outcome(ended.value, Now()) == old(From(Control(Synthesis, start, project.currentIteration)))
      ensures ended.None? ==>
        Outcome(Finished, Saved(Now(), Done, 0, project.currentIteration, false, None)) == old(From(Control(Synthesis, start, project.currentIteration)))
    {
      var idx := start;
      while idx < |manifest.synthesis|
        invariant From(Control(Synthesis, idx, project.currentIteration)) == old(From(Control(Synthesis, start, project.currentIteration)))
      {
        var spec := manifest.synthesis[idx];
        var pos := Position(Synthesis, idx, project.currentIteration);
        var signal := VisitWithHandler(spec.step, pos);
        if signal == Fail {
          return Some(Raised);
        }
        if environment.handles(spec.step) && (project.state == Paused || signal == Refuse) {
          SaveCursor(Synthesis, idx, project.currentIteration, true, project.gatePending);
          return Some(Yielded);
        }
        if spec.pauseAfter {
          var ending := PauseAtStep(pos, spec);
          return Some(ending);
        }
        idx := idx + 1;
      }
      return None;
    }

    /** Runs from the saved cursor until the loop completes, pauses or raises. */
    method Run() returns (ending: Ending)
      modifies this`journal, project
      ensures Outcome(ending, Now()) == RunOnce(manifest, environment, maxIterations, old(Now()))
    {
      var cur := project.cursor;
      var startPhase := if cur.NoCursor? then Setup else cur.phase;
      var startIndex := if cur.NoCursor? then 0 else cur.stepIndex;
      var first := Max(1, if cur.NoCursor? then project.currentIteration else cur.iteration);

      if startPhase == Setup {
        var ended := RunSetup(startIndex, first);
        if ended.Some? {
          return ended.value;
        }
        startPhase, startIndex := PerIteration, 0;
      }
      if startPhase == PerIteration {
        var ended := RunIterations(startIndex, first);
        if ended.Some? {
          return ended.value;
        }
        startPhase, startIndex := Synthesis, 0;
      }
      if startPhase == Synthesis {
        var ended := RunSynthesis(startIndex);
        if ended.Some? {
          return ended.value;
        }
      }
      SaveCursor(Done, 0, project.currentIteration, false, None);
      return Finished;
    }
  }
}
