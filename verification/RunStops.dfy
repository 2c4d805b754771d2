/** Why an orchestrated run stops researching: what decided it, which stop reason says so, and that
    nothing else ends the cycles. */
module RunStops {
  import opened Options
  import opened ProjectStates
  import opened Manifests
  import opened Orchestration
  import opened RunSafety

  /** A stop was asked for behind this work. */
  ghost predicate StopAsked(w: World, work: seq<Work>) {
    exists guard: nat :: w.signal(work, guard) == StopSignal
  }

  /** Nothing was left to search for: follow-ups were looked for because no query was left, and none was found. */
  predicate NothingLeft(w: World, work: seq<Work>) {
    && work != [] && work[|work| - 1].FollowedUp?
    && !w.hasQueries(work[..|work| - 1]) && !w.findsFollowups(work)
  }

  predicate JustAnalysed(work: seq<Work>) {
    work != [] && work[|work| - 1].Analysed?
  }

  /** What ended the cycles of a converged project, and the stop reason that says so. */
  ghost predicate EndsFor(cfg: Settings, w: World, r: Run) {
    || (StopAsked(w, r.work) && r.p.stopReason == Some(UserStopped))
    || (NothingLeft(w, r.work) && r.p.stopReason == Some(NoHighValueGaps))
    || (JustAnalysed(r.work)
        && if w.decision(r.work).Some? then r.p.stopReason == w.decision(r.work)
           else cfg.maxIterations <= r.work[|r.work| - 1].iteration && r.p.stopReason == Some(StopReason.MaxIterations))
  }

  /** An analysis that is followed by more was not the last: nothing was decided, and iterations are left. */
  predicate GoesOnFor(cfg: Settings, w: World, work: seq<Work>, i: nat)
    requires i < |work|
  {
    work[i].Analysed? ==> w.decision(work[..i + 1]).None? && work[i].iteration < cfg.maxIterations
  }

  /** A search has queries, or follow-ups that were just found. */
  predicate SearchesFor(w: World, work: seq<Work>, i: nat)
    requires i < |work|
  {
    work[i].Searched? ==>
      w.hasQueries(work[..i]) || (0 < i && work[i - 1].FollowedUp? && w.findsFollowups(work[..i]))
  }

  /** From some point on, everything was done for a reason, and nothing went on that was decided to end. */
  predicate InReason(cfg: Settings, w: World, work: seq<Work>, from: nat) {
    && (forall i :: from <= i < |work| ==> SearchesFor(w, work, i))
    && (forall i :: from <= i < |work| - 1 ==> GoesOnFor(cfg, w, work, i))
  }

  // ------------------------------------------------------------------ passes

  /** What a phase adds to the work. */
  lemma SearchAdds(cfg: Settings, w: World, r: Run)
    requires r.p.state == Searching
    ensures var r1 := SearchCycle(w, r);
      && r.work <= r1.work && InReason(cfg, w, r1.work, |r.work|)
      && (r1.p.state == Converged || r1.p.state == AnalyzingGaps)
      && (r1.p.state == Converged ==> EndsFor(cfg, w, r1))
      && !JustAnalysed(r1.work)
  {
    var it, r1 := r.p.currentIteration, SearchCycle(w, r);
    var followed := r.work + [FollowedUp(it)];
    hide Legal;
    if w.hasQueries(r.work) {
      assert r1.work == r.work + [Searched(it)] && r1.work[..|r.work|] == r.work;
    } else if w.findsFollowups(followed) {
      assert r1.work == followed + [Searched(it)] && r1.work[..|followed|] == followed;
    } else {
      assert r1.work == followed && followed[..|followed| - 1] == r.work;
    }
  }

  /** The analysis just made lets the run go on. */
  lemma AnalyseAdds(cfg: Settings, w: World, r: Run)
    requires r.p.state == AnalyzingGaps
    ensures var r1, analysed := Analyse(cfg, w, r), r.work + [Analysed(r.p.currentIteration)];
      if w.decision(analysed).Some? || cfg.maxIterations <= r.p.currentIteration then
        r1.work == analysed && r1.p.state == Converged && EndsFor(cfg, w, r1)
      else
        && (r1.work == analysed || r1.work == analysed + [FollowedUp(r.p.currentIteration)])
        && (r1.p.state == Paused || (r1.p.state == Searching && r1.work == analysed + [FollowedUp(r.p.currentIteration)]))
  {
    hide Legal;
    hide DeclaredPause;
    var analysed := r.work + [Analysed(r.p.currentIteration)];
    assert JustAnalysed(analysed);
  }

  /** Reasons stay reasons when more is done behind work that may go on. */
  lemma ReasonsAdd(cfg: Settings, w: World, a: seq<Work>, b: seq<Work>, from: nat)
    requires a <= b && from <= |a| && InReason(cfg, w, a, from) && InReason(cfg, w, b, |a|)
    requires from < |a| ==> !JustAnalysed(a)
    ensures InReason(cfg, w, b, from)
  {
    forall i | from <= i < |a| ensures SearchesFor(w, b, i) {
      assert SearchesFor(w, a, i) && b[..i] == a[..i];
    }
    forall i | from <= i < |b| - 1 ensures GoesOnFor(cfg, w, b, i) {
      if i < |a| - 1 {
        assert GoesOnFor(cfg, w, a, i) && b[..i + 1] == a[..i + 1];
      }
    }
  }

  lemma AnalysedInReason(cfg: Settings, w: World, r: Run)
    requires r.p.state == AnalyzingGaps
    ensures var r1 := Analyse(cfg, w, r);
      && r.work <= r1.work && InReason(cfg, w, r1.work, |r.work|)
      && r1.p.state in {Converged, Paused, Searching}
      && (r1.p.state == Converged ==> EndsFor(cfg, w, r1))
      && (r1.p.state == Searching ==> !JustAnalysed(r1.work))
  {
    AnalyseAdds(cfg, w, r);
    hide Analyse;
    hide EndsFor;
    var analysed := r.work + [Analysed(r.p.currentIteration)];
    var more := analysed + [FollowedUp(r.p.currentIteration)];
    assert more[..|r.work| + 1] == analysed;
  }

  /** One pass from a project that is researching. */
  lemma PassInReason(cfg: Settings, w: World, r: Run, guard: nat)
    requires Researching(r.p.state)
    ensures var t := LoopPass(cfg, w, r, guard);
      && r.work <= Result(t).work && InReason(cfg, w, Result(t).work, |r.work|)
      && (Result(t).p.state == Converged ==> EndsFor(cfg, w, Result(t)))
      && (t.Go? ==> Researching(t.run.p.state) || t.run.p.state in {Converged, Paused})
      && (t.Go? && Researching(t.run.p.state) && t.run.work != r.work ==> !JustAnalysed(t.run.work))
  {
    if GUARD_LIMIT <= guard || w.signal(r.work, guard) != NoSignal {
      RequestInReason(cfg, w, r, guard);
      return;
    }
    if r.p.state == Searching {
      SearchAdds(cfg, w, r);
    } else {
      AnalysedInReason(cfg, w, r);
    }
    hide SearchCycle;
    hide Analyse;
    hide InReason;
    hide EndsFor;
    hide JustAnalysed;
  }

  lemma RequestInReason(cfg: Settings, w: World, r: Run, guard: nat)
    requires Researching(r.p.state) && (GUARD_LIMIT <= guard || w.signal(r.work, guard) != NoSignal)
    ensures var t := LoopPass(cfg, w, r, guard);
      && Result(t).work == r.work && InReason(cfg, w, Result(t).work, |r.work|)
      && (Result(t).p.state == Converged ==> EndsFor(cfg, w, Result(t)))
      && (t.Go? ==> t.run.p.state in {Converged, Paused})
  {
    NothingAdded(cfg, w, r.work);
    hide InReason;
    hide NothingLeft;
    hide JustAnalysed;
    hide SearchCycle;
    hide Analyse;
  }

  lemma NothingAdded(cfg: Settings, w: World, work: seq<Work>)
    ensures InReason(cfg, w, work, |work|)
  {
  }

  /** From a project that is researching: all that the run loop does is done for a reason, and if it
      converges, its stop reason says what ended the cycles. */
  lemma {:induction false} LoopInReason(cfg: Settings, w: World, r: Run, guard: nat)
    requires Researching(r.p.state)
    ensures var e := RunLoop(cfg, w, r, guard);
      && r.work <= e.run.work && InReason(cfg, w, e.run.work, |r.work|)
      && (e.run.p.state == Converged ==> EndsFor(cfg, w, e.run))
    decreases if guard < GUARD_LIMIT then GUARD_LIMIT - guard else 0
  {
    PassInReason(cfg, w, r, guard);
    hide LoopPass;
    hide EndsFor;
    hide InReason;
    hide JustAnalysed;
    match LoopPass(cfg, w, r, guard)
    case Go(r1, guard1) =>
      if Researching(r1.p.state) {
        LoopInReason(cfg, w, r1, guard1);
        ReasonsAdd(cfg, w, r1.work, RunLoop(cfg, w, r1, guard1).run.work, |r.work|);
      }
    case _ =>
  }

  // ------------------------------------------------------------------ whole calls

  lemma BeforeLoopLeads(cfg: Settings, w: World, r: Run)
    requires r.p.state in {Created, Clarifying, Planned}
    ensures BeforeLoop(cfg, w, r).p.state in {Paused, Searching}
  {
    hide Legal;
    hide DeclaredPause;
  }

  /** The research of a call: the work it does up to the report. */
  function Research(r: Run): seq<Work> {
    if r.work != [] && r.work[|r.work| - 1] == Reported then r.work[..|r.work| - 1] else r.work
  }

  /** A call that completes a project which was not converged before: research ended for the reason that
      the stop reason gives, and nothing was left undecided or done without one. */
  lemma CompletedInReason(cfg: Settings, w: World, r: Run)
    requires r.p.state in {Created, Clarifying, Planned, Searching, AnalyzingGaps}
    ensures var r1 := RunToRest(cfg, w, r, 0).run;
      r1.p.state == Completed ==>
        && EndsFor(cfg, w, r1.(work := Research(r1)))
        && InReason(cfg, w, Research(r1), |BeforeLoop(cfg, w, r).work|)
  {
    var r0 := BeforeLoop(cfg, w, r);
    if r.p.state in {Created, Clarifying, Planned} {
      BeforeLoopLeads(cfg, w, r);
    } else {
      assert r0 == r;
    }
    if Researching(r0.p.state) {
      LoopInReason(cfg, w, r0, 0);
      LoopNeverCompletes(cfg, w, r0, 0);
    }
    hide BeforeLoop;
    hide InReason;
    hide EndsFor;
    var e := RunLoop(cfg, w, r0, 0);
    if !e.tripped && e.run.p.state == Converged {
      ReportedLast(cfg, w, e.run);
    }
    hide Synthesise;
  }

  lemma ReportedLast(cfg: Settings, w: World, r: Run)
    requires r.p.state == Converged
    ensures var r1 := Synthesise(cfg, r);
      r1.p.state == Completed ==>
        && Research(r1) == r.work && r1.p.stopReason == r.p.stopReason
        && (EndsFor(cfg, w, r) ==> EndsFor(cfg, w, r1.(work := Research(r1))))
  {
    hide Legal;
    hide NothingLeft;
    hide JustAnalysed;
    assert (r.work + [Reported])[..|r.work|] == r.work;
  }

  lemma {:induction false} LoopNeverCompletes(cfg: Settings, w: World, r: Run, guard: nat)
    requires Researching(r.p.state)
    ensures RunLoop(cfg, w, r, guard).run.p.state != Completed
    decreases if guard < GUARD_LIMIT then GUARD_LIMIT - guard else 0
  {
    PassInReason(cfg, w, r, guard);
    PassNeverCompletes(cfg, w, r, guard);
    hide LoopPass;
    match LoopPass(cfg, w, r, guard)
    case Go(r1, guard1) =>
      if Researching(r1.p.state) {
        LoopNeverCompletes(cfg, w, r1, guard1);
      }
    case _ =>
  }

  lemma PassNeverCompletes(cfg: Settings, w: World, r: Run, guard: nat)
    requires Researching(r.p.state)
    ensures Result(LoopPass(cfg, w, r, guard)).p.state != Completed
  {
    hide Legal;
    hide DeclaredPause;
  }

  // ------------------------------------------------------------------ failing

  /** Nothing but a failure is called one. */
  ghost predicate DecidesNoFailure(w: World) {
    forall work :: w.decision(work) != Some(RunFailed)
  }

  lemma PassFails(cfg: Settings, w: World, r: Run, guard: nat)
    requires DecidesNoFailure(w) && Looping(r.p.state) && r.p.stopReason != Some(RunFailed)
    ensures var t := LoopPass(cfg, w, r, guard);
      Result(t).p.stopReason == Some(RunFailed) <==> t.Tripped? || Result(t).p.state == ProjectState.Failed
  {
    hide Legal;
    hide DeclaredPause;
    var it := r.p.currentIteration;
    assert w.decision(Did(r, Analysed(it)).work) != Some(RunFailed);
  }

  lemma {:induction false} LoopFails(cfg: Settings, w: World, r: Run, guard: nat)
    requires DecidesNoFailure(w) && r.p.stopReason != Some(RunFailed) && r.p.state != ProjectState.Failed
    ensures var e := RunLoop(cfg, w, r, guard);
      e.run.p.stopReason == Some(RunFailed) <==> e.tripped || e.run.p.state == ProjectState.Failed
    decreases if guard < GUARD_LIMIT then GUARD_LIMIT - guard else 0
  {
    if Looping(r.p.state) {
      PassFails(cfg, w, r, guard);
      hide LoopPass;
      hide DecidesNoFailure;
      match LoopPass(cfg, w, r, guard)
      case Go(r1, guard1) =>
        if r1.p.state != ProjectState.Failed {
          LoopFails(cfg, w, r1, guard1);
        }
      case _ =>
    }
  }

  lemma PhasesFailNot(cfg: Settings, w: World, r: Run)
    requires r.p.state != ProjectState.Failed
    ensures BeforeLoop(cfg, w, r).p.state != ProjectState.Failed && BeforeLoop(cfg, w, r).p.stopReason == r.p.stopReason
    ensures Synthesise(cfg, r).p.state != ProjectState.Failed && Synthesise(cfg, r).p.stopReason == r.p.stopReason
  {
    hide Legal;
    hide DeclaredPause;
  }

  /** A call ends with the reason FAILED exactly when its guard tripped or an illegal request made the
      project fail. */
  lemma FailedExactlyWhen(cfg: Settings, w: World, r: Run)
    requires DecidesNoFailure(w) && r.p.stopReason != Some(RunFailed) && r.p.state != ProjectState.Failed
    ensures var e := RunToRest(cfg, w, r, 0);
      e.run.p.stopReason == Some(RunFailed) <==> e.tripped || e.run.p.state == ProjectState.Failed
  {
    PhasesFailNot(cfg, w, r);
    var r0 := BeforeLoop(cfg, w, r);
    LoopFails(cfg, w, r0, 0);
    var e := RunLoop(cfg, w, r0, 0);
    if e.run.p.state == Converged {
      PhasesFailNot(cfg, w, e.run);
    }
    hide BeforeLoop;
    hide RunLoop;
    hide Synthesise;
  }
}
