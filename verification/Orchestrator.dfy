/** The orchestrator: runs a project phase by phase, pausing at its gates, and takes it up again. */
module Orchestrators {
  import opened Options
  import opened ProjectStates
  import opened Manifests
  import opened Orchestration

  /** The moves of a cycle of search, fetch and extraction, and the one to convergence instead. */
  lemma CycleIsLegal()
    ensures Legal(Searching, Fetching) && Legal(Fetching, Extracting) && Legal(Extracting, Verifying) && Legal(Verifying, AnalyzingGaps)
    ensures Legal(Searching, Converged)
  {
  }

  class Orchestrator {
    const project: Project
    const settings: Settings
    const world: World
    /** The work done so far, as the repositories tell it. */
    var work: seq<Work>
    ghost var legal: bool
    ghost var pausedOn: seq<string>

    ghost function Now(): Run
      reads this, project
    {
      Run(project.Value(), work, legal, pausedOn)
    }

    constructor (project: Project, settings: Settings, world: World)
      ensures this.project == project && this.settings == settings && this.world == world
      ensures work == [] && legal && pausedOn == []
    {
      this.project, this.settings, this.world := project, settings, world;
      work, legal, pausedOn := [], true, [];
    }

    /** A move that is legal wherever it is requested. */
    method Move(target: ProjectState)
      requires Legal(project.state, target)
      modifies project
      ensures Now() == To(old(Now()), target)
    {
      hide Allowed;
      var status := project.Transition(target);
      assert status.Ok?;
    }

    method Do(piece: Work)
      modifies this`work
      ensures Now() == Did(old(Now()), piece)
    {
      work := work + [piece];
    }

    method PauseFor(gate: string)
      requires Legal(project.state, Paused)
      modifies project, this`pausedOn
      ensures Now() == PauseOn(old(Now()), gate)
    {
      hide Allowed;
      project.gatePending := Some(gate);
      pausedOn := pausedOn + [gate];
      Move(Paused);
    }

    method ReviewGate(gate: string) returns (goOn: bool)
      requires Legal(project.state, Paused)
      modifies project, this`pausedOn
      ensures goOn <==> !Holds(settings, old(Now()), gate)
      ensures Now() == if goOn then old(Now()) else PauseOn(old(Now()), gate)
    {
      if !settings.gatesEnabled || gate in project.approvedGates {
        return true;
      }
      PauseFor(gate);
      return false;
    }

    /** The declared pause that is due after a step. */
    method StepHasPause(steps: seq<StepSpec>, step: Step) returns (gate: Option<string>)
      ensures gate == DeclaredPause(steps, step, project.approvedGates)
    {
      var i := 0;
      while i < |steps|
        invariant i <= |steps|
        invariant DeclaredPause(steps[i..], step, project.approvedGates) == DeclaredPause(steps, step, project.approvedGates)
      {
        var spec := steps[i];
        if spec.step == step && spec.pauseAfter && spec.GateName() !in project.approvedGates {
          return Some(spec.GateName());
        }
        assert steps[i..][1..] == steps[i + 1..];
        i := i + 1;
      }
      return None;
    }

    method PauseAfterStep(steps: seq<StepSpec>, step: Step)
      requires Legal(project.state, Paused)
      modifies project, this`pausedOn
      ensures Now() == PauseAfter(old(Now()), steps, step)
    {
      hide Allowed;
      var gate := StepHasPause(steps, step);
      if gate.Some? {
        PauseFor(gate.value);
      }
    }

    method PhaseClarify()
      requires project.state == Created
      modifies project, this`work, this`pausedOn
      ensures Now() == ClarifyProblem(settings, world, old(Now()))
    {
      Move(Clarifying);
      Do(Clarified);
      if world.asks(work) {
        PauseFor(WAITING_GATE);
        return;
      }
      var goOn := ReviewGate(PROBLEM_GATE);
      if goOn {
        PauseAfterStep(settings.loop.setup, Clarify);
      }
    }

    method PhasePlan()
      requires project.state == Clarifying
      modifies project, this`work, this`pausedOn
      ensures Now() == MakePlan(settings, old(Now()))
    {
      Do(PlannedOut);
      var goOn := ReviewGate(PLAN_GATE);
      if goOn {
        Move(Planned);
        PauseAfterStep(settings.loop.setup, Plan);
      }
    }

    method BeginsIteration()
      requires Legal(project.state, Searching)
      modifies project
      ensures Now() == BeginIteration(old(Now()))
    {
      hide Allowed;
      project.currentIteration := project.currentIteration + 1;
      Move(Searching);
    }

    method PhaseSearch()
      requires project.state == Searching
      modifies project, this`work
      ensures Now() == SearchCycle(world, old(Now()))
    {
      CycleIsLegal();
      hide Legal;
      var it := project.currentIteration;
      if !world.hasQueries(work) {
        Do(FollowedUp(it));
        if !world.findsFollowups(work) {
          project.stopReason := Some(NoHighValueGaps);
          Move(Converged);
          return;
        }
      }
      Do(Searched(it));
      Move(Fetching);
      Move(Extracting);
      Move(Verifying);
      Move(AnalyzingGaps);
    }

    method FollowUp()
      requires Legal(project.state, GeneratingFollowups)
      modifies project, this`work
      ensures Now() == NextIteration(old(Now()))
    {
      Move(GeneratingFollowups);
      Do(FollowedUp(project.currentIteration));
      BeginsIteration();
    }

    method PhaseAnalyse() returns (goOn: bool)
      requires project.state == AnalyzingGaps
      modifies project, this`work, this`pausedOn
      ensures Now() == Analyse(settings, world, old(Now()))
      ensures !goOn ==> !Looping(project.state)
    {
      hide DeclaredPause;
      var it := project.currentIteration;
      Do(Analysed(it));
      var decision := world.decision(work);
      if decision.Some? {
        project.stopReason := decision;
        if decision.value != SaturationReached && decision.value != NoHighValueGaps {
          Move(GeneratingFollowups);
        }
        Move(Converged);
        return false;
      }
      if settings.maxIterations <= it {
        project.stopReason := Some(StopReason.MaxIterations);
        Move(Converged);
        return false;
      }
      if it == 1 {
        goOn := ReviewGate(CYCLE_GATE);
        if !goOn {
          return;
        }
      }
      FollowUp();
      PauseAfterStep(settings.loop.perIteration, EvaluateConvergence);
      return true;
    }

    method PhaseSynthesise()
      requires project.state == Converged
      modifies project, this`work, this`pausedOn
      ensures Now() == Synthesise(settings, old(Now()))
    {
      var goOn := ReviewGate(SYNTHESIS_GATE);
      if goOn {
        Move(Synthesizing);
        Do(Reported);
        Move(Completed);
      }
    }

    /** A stop or pause asked for between two phases; refused where the table does not allow it. */
    method Interrupt(target: ProjectState) returns (status: Status)
      modifies project, this`legal
      ensures status.Ok? <==> Legal(old(project.state), target)
      ensures Now() == if status.Ok? then To(old(Now()), target) else old(Now()).(legal := false)
    {
      hide Allowed;
      status := project.Transition(target);
      legal := legal && status.Ok?;
    }

    method RunsBeforeLoop()
      modifies project, this`work, this`pausedOn
      ensures Now() == BeforeLoop(settings, world, old(Now()))
    {
      hide ClarifyProblem;
      hide MakePlan;
      if project.state == Created {
        PhaseClarify();
      }
      if project.state == Clarifying {
        PhasePlan();
      }
      if project.state == Planned {
        BeginsIteration();
      }
    }

    /** What a raised error makes of the project. */
    ghost function Ending(status: Status, tripped: bool): Ended
      reads this, project
    {
      Ended(if status.Ok? then Now() else Fatal(Now()), tripped)
    }

    /** The run loop: a phase at a time until the project rests, a request is refused,
        or the guard trips. */
    method RunsLoop() returns (status: Status, ghost tripped: bool)
      modifies project, this
      ensures Ending(status, tripped) == old(RunLoop(settings, world, Now(), 0))
      ensures tripped ==> Looping(project.state)
    {
      hide Analyse;
      hide SearchCycle;
      var guard := 0;
      while Looping(project.state)
        invariant guard <= GUARD_LIMIT
        invariant RunLoop(settings, world, Now(), guard) == old(RunLoop(settings, world, Now(), 0))
        decreases GUARD_LIMIT - guard
      {
        if GUARD_LIMIT <= guard {
          project.stopReason := Some(RunFailed);
          return Ok, true;
        }
        var signal := world.signal(work, guard);
        if signal == StopSignal {
          project.stopReason := Some(UserStopped);
          status := Interrupt(Converged);
          if status.Raise? {
            return Raise, false;
          }
        } else if signal == PauseSignal {
          status := Interrupt(Paused);
          if status.Raise? {
            return Raise, false;
          }
        } else if project.state == Searching {
          PhaseSearch();
        } else if project.state == AnalyzingGaps {
          var goOn := PhaseAnalyse();
        } else {
          return Ok, false;
        }
        guard := guard + 1;
      }
      return Ok, false;
    }

    /** Runs the project until it rests; an error that escapes fails it. */
    method Runs() returns (status: Status)
      modifies project, this
      ensures Now() == old(RunToRest(settings, world, Now(), 0)).run
      ensures status.Raise? ==> project.state == ProjectState.Failed
    {
      hide BeforeLoop;
      hide RunLoop;
      RunsBeforeLoop();
      ghost var tripped;
      status, tripped := RunsLoop();
      if status.Raise? {
        project.stopReason := Some(RunFailed);
        project.state := ProjectState.Failed;
        legal := false;
        return Raise;
      }
      if project.state == Converged {
        PhaseSynthesise();
      }
      return Ok;
    }

    /** Where a paused project is taken up again. */
    method TakesUp(gate: Option<string>)
      requires project.state == Paused
      modifies project, this`work
      ensures Now() == TakeUp(old(Now()), gate)
    {
      if gate == Some(PROBLEM_GATE) || gate == Some(WAITING_GATE) {
        Move(Clarifying);
      } else if gate == Some(PLAN_GATE) {
        Move(Planned);
      } else if gate == Some(CYCLE_GATE) {
        FollowUp();
      } else if gate == Some(SYNTHESIS_GATE) {
        Move(Converged);
      } else if project.currentIteration == 0 {
        if Clarified !in work || PlannedOut !in work {
          Move(Clarifying);
        } else {
          Move(Planned);
        }
      } else if project.stopReason.Some? {
        Move(Converged);
      } else {
        Move(Searching);
      }
    }

    /** Approves the pending gate, takes the project up again and runs it. */
    method Resume() returns (status: Status)
      modifies project, this
      ensures Now() == old(RunToRest(settings, world, Resumed(Now()), 0)).run
    {
      hide RunToRest;
      hide TakeUp;
      var gate := project.gatePending;
      if gate.Some? && gate.value != "" && gate.value !in project.approvedGates {
        project.approvedGates := project.approvedGates + [gate.value];
      }
      if project.state == Paused {
        TakesUp(gate);
      }
      project.gatePending := None;
      assert Now() == old(Resumed(Now()));
      status := Runs();
    }
  }
}
