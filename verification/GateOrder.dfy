/** Review gates over whole histories: with gates on, nobody gets past a gate that has not been
    approved, and nothing is approved that the project did not pause on. */
module GateOrder {
  import opened Options
  import opened ProjectStates
  import opened Manifests
  import opened Orchestration
  import opened RunSafety

  predicate Passed(r: Run, gate: string) {
    gate in r.p.approvedGates
  }

  /** The problem definition was looked at, or its questions were answered. */
  predicate Agreed(r: Run) {
    Passed(r, PROBLEM_GATE) || Passed(r, WAITING_GATE)
  }

  /** The gates stood before everything that has been done so far. */
  ghost predicate GatesKept(r: Run) {
    && (PlannedOut in r.work ==> Agreed(r))
    && (forall i :: Searched(i) in r.work ==> Passed(r, PLAN_GATE) && (2 <= i ==> Passed(r, CYCLE_GATE)))
    && (Reported in r.work ==> Passed(r, SYNTHESIS_GATE))
  }

  /** Every approval was given to a pause. */
  predicate ApprovalsEarned(r: Run) {
    && (forall g :: g in r.p.approvedGates ==> g in r.pausedOn)
    && (r.p.gatePending.Some? ==> r.p.gatePending.value in r.pausedOn)
  }

  predicate GatesOn(calls: seq<Call>) {
    forall k :: 0 <= k < |calls| ==> calls[k].cfg.gatesEnabled
  }

  /** What the state of a project says about the gates behind it. */
  predicate Placed(r: Run) {
    && (r.p.state != Paused ==> r.p.gatePending == None)
    && (2 <= r.p.currentIteration ==> Passed(r, CYCLE_GATE))
    && match r.p.state
       case Created => r.p.approvedGates == [] && r.p.currentIteration == 0
       case Clarifying => Agreed(r) && (1 <= r.p.currentIteration ==> Passed(r, CYCLE_GATE))
       case Planned => Agreed(r) && Passed(r, PLAN_GATE) && (1 <= r.p.currentIteration ==> Passed(r, CYCLE_GATE))
       case Paused =>
         if r.p.gatePending == Some(PROBLEM_GATE) || r.p.gatePending == Some(WAITING_GATE) then 1 <= r.p.currentIteration ==> Passed(r, CYCLE_GATE)
         else if r.p.gatePending == Some(PLAN_GATE) then Agreed(r) && (1 <= r.p.currentIteration ==> Passed(r, CYCLE_GATE))
         else Agreed(r) && Passed(r, PLAN_GATE)
       case _ => Agreed(r) && Passed(r, PLAN_GATE) && (Researching(r.p.state) ==> 1 <= r.p.currentIteration)
  }

  ghost predicate Kept(r: Run) {
    GatesKept(r) && Placed(r) && ApprovalsEarned(r)
  }

  // ------------------------------------------------------------------ phases

  /** Work that no gate stands before. */
  predicate Ungated(work: seq<Work>) {
    forall x :: x in work ==> x.Clarified? || x.Analysed? || x.FollowedUp?
  }

  /** Nothing is approved or paused on, and no gated work is done. */
  predicate GoesOn(r: Run, r1: Run) {
    && r.work <= r1.work && Ungated(r1.work[|r.work|..])
    && r1.p.approvedGates == r.p.approvedGates && r1.pausedOn == r.pausedOn
    && r1.p.gatePending == r.p.gatePending
  }

  ghost predicate Past(r: Run) {
    GatesKept(r) && ApprovalsEarned(r)
  }

  lemma GoesOnPast(r: Run, r1: Run)
    requires Past(r) && GoesOn(r, r1)
    ensures Past(r1)
  {
    assert r1.work == r.work + r1.work[|r.work|..];
  }

  lemma PausedPast(r: Run, gate: string)
    requires Past(r)
    ensures Past(PauseOn(r, gate))
  {
  }

  /** A declared pause of a project that is past the plan and, in its second iteration or later, the first cycle. */
  lemma PauseAfterKept(r: Run, steps: seq<StepSpec>, step: Step)
    requires Kept(r) && r.p.state != Paused && Agreed(r) && Passed(r, PLAN_GATE)
    requires 1 <= r.p.currentIteration ==> Passed(r, CYCLE_GATE)
    ensures Kept(PauseAfter(r, steps, step))
  {
    var gate := DeclaredPause(steps, step, r.p.approvedGates);
    if gate.Some? {
      PausedPast(r, gate.value);
    }
    hide DeclaredPause;
    hide GatesKept;
    hide ApprovalsEarned;
  }

  lemma ClarifyKept(cfg: Settings, w: World, r: Run)
    requires Kept(r) && r.p.state == Created && cfg.gatesEnabled
    ensures Kept(ClarifyProblem(cfg, w, r))
  {
    var r1 := Did(To(r, Clarifying), Clarified);
    hide PauseAfter;
    hide GatesKept;
    hide ApprovalsEarned;
    hide Legal;
    GoesOnPast(r, r1);
    PausedPast(r1, WAITING_GATE);
    PausedPast(r1, PROBLEM_GATE);
  }

  lemma PlanKept(cfg: Settings, r: Run)
    requires Kept(r) && r.p.state == Clarifying && cfg.gatesEnabled
    ensures Kept(MakePlan(cfg, r))
  {
    var r1 := Did(r, PlannedOut);
    assert Past(r1);
    hide PauseAfter;
    hide GatesKept;
    hide ApprovalsEarned;
    hide Legal;
    if Passed(r, PLAN_GATE) {
      GoesOnPast(r1, To(r1, Planned));
      PauseAfterKept(To(r1, Planned), cfg.loop.setup, Plan);
    } else {
      PausedPast(r1, PLAN_GATE);
    }
  }

  lemma BeginKept(r: Run)
    requires Kept(r) && r.p.state == Planned
    ensures Kept(BeginIteration(r))
  {
    hide GatesKept;
    hide ApprovalsEarned;
    hide Legal;
    GoesOnPast(r, BeginIteration(r));
  }

  lemma SearchedPast(r: Run)
    requires Past(r) && Passed(r, PLAN_GATE) && (2 <= r.p.currentIteration ==> Passed(r, CYCLE_GATE))
    ensures Past(Did(r, Searched(r.p.currentIteration)))
  {
  }

  lemma SearchKept(w: World, r: Run)
    requires Kept(r) && r.p.state == Searching
    ensures Kept(SearchCycle(w, r))
  {
    hide Legal;
    hide GatesKept;
    hide ApprovalsEarned;
    var r1 := if w.hasQueries(r.work) then r else Did(r, FollowedUp(r.p.currentIteration));
    GoesOnPast(r, r1);
    SearchedPast(r1);
    var r2 := Did(r1, Searched(r.p.currentIteration));
    hide Past;
    if !w.hasQueries(r.work) && !w.findsFollowups(r1.work) {
      GoesOnPast(r1, SearchCycle(w, r));
    } else {
      GoesOnPast(r2, SearchCycle(w, r));
    }
    assert Past(SearchCycle(w, r)) ==> GatesKept(SearchCycle(w, r)) && ApprovalsEarned(SearchCycle(w, r)) by { PastMeans(SearchCycle(w, r)); }
  }

  lemma PastMeans(r: Run)
    ensures Past(r) <==> GatesKept(r) && ApprovalsEarned(r)
  {
  }

  lemma NextKept(r: Run)
    requires Past(r) && r.p.gatePending == None
    requires Agreed(r) && Passed(r, PLAN_GATE) && Passed(r, CYCLE_GATE)
    ensures Kept(NextIteration(r))
  {
    hide GatesKept;
    hide ApprovalsEarned;
    hide Legal;
    GoesOnPast(r, NextIteration(r));
  }

  lemma AnalyseKept(cfg: Settings, w: World, r: Run)
    requires Kept(r) && r.p.state == AnalyzingGaps && cfg.gatesEnabled
    ensures Kept(Analyse(cfg, w, r))
  {
    hide GatesKept;
    hide ApprovalsEarned;
    hide Legal;
    hide PauseAfter;
    var it, r1, r2 := r.p.currentIteration, Did(r, Analysed(r.p.currentIteration)), Analyse(cfg, w, r);
    GoesOnPast(r, r1);
    if w.decision(r1.work).Some? || cfg.maxIterations <= it {
      GoesOnPast(r1, r2);
    } else if Passed(r, CYCLE_GATE) {
      NextKept(r1);
      PauseAfterKept(NextIteration(r1), cfg.loop.perIteration, EvaluateConvergence);
    } else {
      PausedPast(r1, CYCLE_GATE);
    }
    hide NextIteration;
  }

  /** A stop or pause request, or a guard that trips, changes nothing that was done or approved. */
  lemma RequestKept(cfg: Settings, w: World, r: Run, guard: nat)
    requires Kept(r) && Looping(r.p.state) && r.p.state !in {Created, Clarifying, Planned}
    requires GUARD_LIMIT <= guard || w.signal(r.work, guard) != NoSignal
    ensures var r1 := Result(LoopPass(cfg, w, r, guard)); Kept(r1) && r1.p.state !in {Created, Clarifying, Planned}
  {
    hide Legal;
    hide GatesKept;
    hide ApprovalsEarned;
    hide Analyse;
    hide SearchCycle;
    GoesOnPast(r, Result(LoopPass(cfg, w, r, guard)));
  }

  lemma PhasesMoveOn(cfg: Settings, w: World, r: Run)
    ensures r.p.state == Searching ==> SearchCycle(w, r).p.state !in {Created, Clarifying, Planned}
    ensures r.p.state == AnalyzingGaps ==> Analyse(cfg, w, r).p.state !in {Created, Clarifying, Planned}
  {
    hide Legal;
    hide DeclaredPause;
  }

  lemma PassKept(cfg: Settings, w: World, r: Run, guard: nat)
    requires Kept(r) && Looping(r.p.state) && r.p.state !in {Created, Clarifying, Planned} && cfg.gatesEnabled
    ensures var r1 := Result(LoopPass(cfg, w, r, guard)); Kept(r1) && r1.p.state !in {Created, Clarifying, Planned}
  {
    hide Kept;
    if GUARD_LIMIT <= guard || w.signal(r.work, guard) != NoSignal {
      RequestKept(cfg, w, r, guard);
      return;
    }
    PhasesMoveOn(cfg, w, r);
    if r.p.state == Searching {
      SearchKept(w, r);
    } else if r.p.state == AnalyzingGaps {
      AnalyseKept(cfg, w, r);
    }
    hide Analyse;
    hide SearchCycle;
  }

  lemma {:induction false} LoopKept(cfg: Settings, w: World, r: Run, guard: nat)
    requires Kept(r) && r.p.state !in {Created, Clarifying, Planned} && cfg.gatesEnabled
    ensures Kept(RunLoop(cfg, w, r, guard).run)
    decreases if guard < GUARD_LIMIT then GUARD_LIMIT - guard else 0
  {
    hide Kept;
    if Looping(r.p.state) {
      PassKept(cfg, w, r, guard);
      hide LoopPass;
      match LoopPass(cfg, w, r, guard)
      case Go(r1, guard1) => LoopKept(cfg, w, r1, guard1);
      case _ =>
    }
  }

  lemma BeforeLoopKept(cfg: Settings, w: World, r: Run)
    requires Kept(r) && cfg.gatesEnabled
    ensures var r1 := BeforeLoop(cfg, w, r); Kept(r1) && r1.p.state !in {Created, Clarifying, Planned}
  {
    hide Kept;
    hide Legal;
    hide DeclaredPause;
    var r1 := if r.p.state == Created then ClarifyProblem(cfg, w, r) else r;
    if r.p.state == Created {
      ClarifyKept(cfg, w, r);
    }
    var r2 := if r1.p.state == Clarifying then MakePlan(cfg, r1) else r1;
    if r1.p.state == Clarifying {
      PlanKept(cfg, r1);
    }
    if r2.p.state == Planned {
      BeginKept(r2);
    }
  }

  lemma SynthesiseKept(cfg: Settings, r: Run)
    requires Kept(r) && r.p.state == Converged && cfg.gatesEnabled
    ensures Kept(Synthesise(cfg, r))
  {
    hide Legal;
    var r1 := Did(To(r, Synthesizing), Reported);
    if Passed(r, SYNTHESIS_GATE) {
      assert Past(r1);
      GoesOnPast(r1, To(r1, Completed));
    } else {
      PausedPast(r, SYNTHESIS_GATE);
    }
    hide GatesKept;
    hide ApprovalsEarned;
  }

  lemma RunKept(cfg: Settings, w: World, r: Run)
    requires Kept(r) && cfg.gatesEnabled
    ensures Kept(RunToRest(cfg, w, r, 0).run)
  {
    hide Kept;
    hide BeforeLoop;
    hide RunLoop;
    hide Synthesise;
    BeforeLoopKept(cfg, w, r);
    LoopKept(cfg, w, BeforeLoop(cfg, w, r), 0);
    var e := RunLoop(cfg, w, BeforeLoop(cfg, w, r), 0);
    if e.run.p.state == Converged {
      SynthesiseKept(cfg, e.run);
    }
  }

  lemma ApprovedPast(r: Run, state: ProjectState)
    requires Past(r)
    ensures var gate := r.p.gatePending;
      var r1 := r.(p := r.p.(approvedGates := Approve(r.p.approvedGates, gate), gatePending := None, state := state));
      && Past(r1)
      && (forall g :: Passed(r, g) ==> Passed(r1, g))
      && (gate.Some? && gate.value != "" ==> Passed(r1, gate.value))
  {
  }

  lemma ResumedKept(r: Run)
    requires Kept(r)
    ensures Kept(Resumed(r))
  {
    hide GatesKept;
    hide ApprovalsEarned;
    hide Legal;
    hide Approve;
    var gate, r1 := r.p.gatePending, Resumed(r);
    var approved := r.(p := r.p.(approvedGates := Approve(r.p.approvedGates, gate), gatePending := None));
    ApprovedPast(r, r.p.state);
    if r.p.state != Paused {
      assert Approve(r.p.approvedGates, None) == r.p.approvedGates by { NothingApproved(r.p.approvedGates); }
    } else if gate == Some(CYCLE_GATE) {
      NextKept(approved);
      assert r1.p == NextIteration(approved).p && r1.work == NextIteration(approved).work;
      GoesOnPast(NextIteration(approved), r1);
    } else {
      GoesOnPast(approved, r1);
    }
    hide NextIteration;
  }

  lemma NothingApproved(gates: seq<string>)
    ensures Approve(gates, None) == gates
  {
  }

  /** With gates on in every call, over any history of runs and resumes: the plan is made only behind the
      problem definition gate or answered questions, nothing is searched for before the plan gate, no
      second cycle begins before the first-cycle gate, and nothing is reported before the synthesis
      gate has been approved; every approval was given to a pause on that gate. */
  lemma {:induction false} GatesStandBefore(calls: seq<Call>)
    requires GatesOn(calls)
    ensures var r := Session(NEW_PROJECT, calls); GatesKept(r) && ApprovalsEarned(r) && Placed(r)
  {
    hide RunToRest;
    hide Resumed;
    if calls != [] {
      var n := |calls| - 1;
      GatesStandBefore(calls[..n]);
      var r := Session(NEW_PROJECT, calls[..n]);
      ResumedKept(r);
      RunKept(calls[n].cfg, calls[n].w, if calls[n].resumes then Resumed(r) else r);
    }
  }

  // ------------------------------------------------------------------ approvals and questions

  lemma PhasesApproveNothing(cfg: Settings, w: World, r: Run)
    ensures SearchCycle(w, r).p.approvedGates == r.p.approvedGates
    ensures Analyse(cfg, w, r).p.approvedGates == r.p.approvedGates
    ensures ClarifyProblem(cfg, w, r).p.approvedGates == r.p.approvedGates
    ensures MakePlan(cfg, r).p.approvedGates == r.p.approvedGates
  {
    hide Legal;
    hide DeclaredPause;
  }

  lemma PassApprovesNothing(cfg: Settings, w: World, r: Run, guard: nat)
    ensures Result(LoopPass(cfg, w, r, guard)).p.approvedGates == r.p.approvedGates
  {
    PhasesApproveNothing(cfg, w, r);
    hide SearchCycle;
    hide Analyse;
    hide Legal;
  }

  lemma BeforeLoopApprovesNothing(cfg: Settings, w: World, r: Run)
    ensures BeforeLoop(cfg, w, r).p.approvedGates == r.p.approvedGates
  {
    var r1 := if r.p.state == Created then ClarifyProblem(cfg, w, r) else r;
    PhasesApproveNothing(cfg, w, r);
    PhasesApproveNothing(cfg, w, r1);
    hide ClarifyProblem;
    hide MakePlan;
    hide Legal;
  }

  lemma {:induction false} LoopApprovesNothing(cfg: Settings, w: World, r: Run, guard: nat)
    ensures RunLoop(cfg, w, r, guard).run.p.approvedGates == r.p.approvedGates
    decreases if guard < GUARD_LIMIT then GUARD_LIMIT - guard else 0
  {
    if Looping(r.p.state) {
      PassApprovesNothing(cfg, w, r, guard);
      hide LoopPass;
      match LoopPass(cfg, w, r, guard)
      case Go(r1, guard1) => LoopApprovesNothing(cfg, w, r1, guard1);
      case _ =>
    }
  }

  /** Only the user approves: a run adds nothing to the approved gates. */
  lemma RunApprovesNothing(cfg: Settings, w: World, r: Run)
    ensures RunToRest(cfg, w, r, 0).run.p.approvedGates == r.p.approvedGates
  {
    BeforeLoopApprovesNothing(cfg, w, r);
    LoopApprovesNothing(cfg, w, BeforeLoop(cfg, w, r), 0);
    hide BeforeLoop;
    hide RunLoop;
    hide Legal;
  }

  predicate AlwaysAsks(calls: seq<Call>) {
    forall k :: 0 <= k < |calls| ==> calls[k].w.asks([Clarified])
  }

  /** New, waiting for the answers, or answered. */
  predicate Answering(r: Run) {
    || r == NEW_PROJECT
    || Passed(r, WAITING_GATE)
    || (r.p.state == Paused && r.p.gatePending == Some(WAITING_GATE) && r.work == [Clarified])
  }

  lemma CallAnswering(r: Run, call: Call)
    requires Answering(r) && call.w.asks([Clarified])
    ensures Answering(AfterCall(r, call))
  {
    var r1 := if call.resumes then Resumed(r) else r;
    RunApprovesNothing(call.cfg, call.w, r1);
    hide RunToRest;
    if r == NEW_PROJECT {
      assert r1 == r;
      AsksFirst(call.cfg, call.w);
    } else if !Passed(r, WAITING_GATE) && !call.resumes {
      assert RunToRest(call.cfg, call.w, r1, 0) == Ended(r1, false) by { PausedRests(call.cfg, call.w, r1); }
    }
  }

  lemma AsksFirst(cfg: Settings, w: World)
    requires w.asks([Clarified])
    ensures var r := RunToRest(cfg, w, NEW_PROJECT, 0).run;
      r.p.state == Paused && r.p.gatePending == Some(WAITING_GATE) && r.work == [Clarified]
  {
    var r1 := ClarifyProblem(cfg, w, NEW_PROJECT);
    assert Did(To(NEW_PROJECT, Clarifying), Clarified).work == [Clarified];
    assert r1 == PauseOn(Did(To(NEW_PROJECT, Clarifying), Clarified), WAITING_GATE);
    hide ClarifyProblem;
    hide LoopPass;
    hide Synthesise;
    assert BeforeLoop(cfg, w, NEW_PROJECT) == r1;
    assert RunLoop(cfg, w, r1, 0) == Ended(r1, false);
  }

  lemma PausedRests(cfg: Settings, w: World, r: Run)
    requires r.p.state == Paused
    ensures RunToRest(cfg, w, r, 0) == Ended(r, false)
  {
  }

  /** Whatever the gates, a project whose questions are asked is not planned before they are answered. */
  lemma {:induction false} QuestionsComeFirst(calls: seq<Call>)
    requires AlwaysAsks(calls)
    ensures var r := Session(NEW_PROJECT, calls); Answering(r) && (PlannedOut in r.work ==> Passed(r, WAITING_GATE))
  {
    hide AfterCall;
    if calls != [] {
      var n := |calls| - 1;
      QuestionsComeFirst(calls[..n]);
      CallAnswering(Session(NEW_PROJECT, calls[..n]), calls[n]);
    }
  }
}
