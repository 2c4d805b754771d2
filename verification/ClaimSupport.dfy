/** The verdict ladder: how far a quoted passage supports a claim. What the text tests find in the
    two texts is arbitrary; the ladder is what is modelled. */
module ClaimSupport {
  import opened Options

  datatype Verdict = Entails | Strongly | Partially | Weakly | Neutral | Contradicts | Unrelated {
    function Rank(): nat {
      match this
      case Entails => 6 case Strongly => 5 case Partially => 4 case Weakly => 3
      case Neutral => 2 case Contradicts => 1 case Unrelated => 0
    }

    /** Only these may feed grounded synthesis. */
    predicate Supports() { Entails? || Strongly? || Partially? }
  }

  function Lower(a: Verdict, b: Verdict): Verdict {
    if b.Rank() < a.Rank() then b else a
  }

  /** What is found in one clause of the quote. */
  datatype Clause = Clause(sharesTopic: bool, negated: bool, up: bool, down: bool)

  /** What the tests find in a claim and a quote. */
  datatype Signals = Signals(
    emptySide: bool,
    coverage: real,
    claimNumbers: bool, missingNumbers: bool, quoteNumbers: bool,
    claimNegated: bool, claimUp: bool, claimDown: bool,
    contrast: bool,
    clauses: seq<Clause>,
    dropsHedge: bool,
    tightensQuantifier: bool,
    upgradesCorrelation: bool,
    contained: bool)

  // ------------------------------------------------------------------ the findings

  predicate FigureConflict(s: Signals) {
    s.claimNumbers && s.missingNumbers && s.quoteNumbers && 0.6 <= s.coverage
  }

  predicate ClauseFlips(s: Signals, c: Clause) {
    c.sharesTopic && c.negated && !s.claimNegated
  }

  predicate MovesAgainst(s: Signals, c: Clause) {
    c.sharesTopic && s.contrast && ((s.claimUp && c.down) || (s.claimDown && c.up))
  }

  predicate ClauseContradicts(s: Signals, c: Clause) {
    ClauseFlips(s, c) || MovesAgainst(s, c)
  }

  /** The quote says the opposite: other figures, a negated topic, or an opposite direction. */
  predicate Opposed(s: Signals) {
    FigureConflict(s) || exists i :: 0 <= i < |s.clauses| && ClauseContradicts(s, s.clauses[i])
  }

  predicate AddsNegation(s: Signals, c: Clause) {
    c.sharesTopic && !c.negated && s.claimNegated
  }

  predicate AnyAddsNegation(s: Signals, n: nat)
    requires n <= |s.clauses|
  {
    exists i :: 0 <= i < n && AddsNegation(s, s.clauses[i])
  }

  function When(holds: bool, floor: Verdict): seq<Verdict> {
    if holds then [floor] else []
  }

  /** The floors that the defects of a claim call for, in the order in which they are looked for. */
  function Floors(s: Signals): seq<Verdict> {
    When(s.coverage < 0.6, Weakly)
    + When(s.claimNumbers && s.missingNumbers && s.quoteNumbers, Weakly)
    + When(s.claimNumbers && s.missingNumbers && !s.quoteNumbers, Partially)
    + When(AnyAddsNegation(s, |s.clauses|), Partially)
    + When(s.dropsHedge, Weakly)
    + When(s.tightensQuantifier, Partially)
    + When(s.upgradesCorrelation, Weakly)
  }

  /** The verdict on a claim: the first floor counts, the others are ignored. */
  function Judged(s: Signals): Verdict {
    if s.emptySide then Neutral
    else if s.coverage < 0.34 then Unrelated
    else if Opposed(s) then Contradicts
    else if Floors(s) != [] then Floors(s)[0]
    else if 0.9 <= s.coverage && !s.claimNumbers && s.contained then Entails
    else Strongly
  }

  // ------------------------------------------------------------------ the ladder in code

  function OrElse(floor: Option<Verdict>, verdict: Verdict): Option<Verdict> {
    if floor.Some? then floor else Some(verdict)
  }

  function First(floors: seq<Verdict>): Option<Verdict> {
    if floors == [] then None else Some(floors[0])
  }

  /** Clause by clause: tells whether one contradicts the claim. */
  method CheckClauses(s: Signals, before: Option<Verdict>) returns (contradicted: bool, floor: Option<Verdict>)
    ensures contradicted <==> exists i :: 0 <= i < |s.clauses| && ClauseContradicts(s, s.clauses[i])
    ensures !contradicted ==> floor == if AnyAddsNegation(s, |s.clauses|) then OrElse(before, Partially) else before
  {
    floor := before;
    for i := 0 to |s.clauses|
      invariant forall k :: 0 <= k < i ==> !ClauseContradicts(s, s.clauses[k])
      invariant floor == if AnyAddsNegation(s, i) then OrElse(before, Partially) else before
    {
      var c := s.clauses[i];
      if c.sharesTopic {
        if c.negated != s.claimNegated {
          if !s.claimNegated && c.negated {
            return true, floor;
          }
          floor := OrElse(floor, Partially);
        }
        if s.contrast && ((s.claimUp && c.down) || (s.claimDown && c.up)) {
          assert ClauseContradicts(s, c);
          return true, floor;
        }
      }
    }
    // the closing clause once more, against stripping it from the claim
    if s.contrast && s.clauses != [] {
      var tail := s.clauses[|s.clauses| - 1];
      if tail.sharesTopic && ((s.claimUp && tail.down) || (s.claimDown && tail.up)) {
        return true, floor;
      }
    }
    return false, floor;
  }

  method VerifyClaimSupport(s: Signals) returns (verdict: Verdict)
    ensures verdict == Judged(s)
  {
    if s.emptySide {
      return Neutral;
    }
    if s.coverage < 0.34 {
      return Unrelated;
    }
    var floor: Option<Verdict> := if s.coverage < 0.6 then Some(Weakly) else None;
    if s.claimNumbers && s.missingNumbers {
      if s.quoteNumbers {
        if 0.6 <= s.coverage {
          return Contradicts;
        }
        floor := OrElse(floor, Weakly);
      } else {
        floor := OrElse(floor, Partially);
      }
    }
    var contradicted;
    contradicted, floor := CheckClauses(s, floor);
    if contradicted {
      return Contradicts;
    }
    if s.dropsHedge {
      floor := OrElse(floor, Weakly);
    }
    if s.tightensQuantifier {
      floor := OrElse(floor, Partially);
    }
    if s.upgradesCorrelation {
      floor := OrElse(floor, Weakly);
    }
    assert floor == First(Floors(s));
    if floor.Some? {
      return if floor.value.Rank() < Strongly.Rank() then floor.value else Strongly;
    }
    return if 0.9 <= s.coverage && !s.claimNumbers && s.contained then Entails else Strongly;
  }

  // ------------------------------------------------------------------ does ambiguity only degrade?

  /** The lowest of the floors called for. */
  function Lowest(floors: seq<Verdict>): Verdict {
    if floors == [] then Strongly else Lower(Lowest(floors[..|floors| - 1]), floors[|floors| - 1])
  }

  predicate Graded(s: Signals) {
    !s.emptySide && 0.34 <= s.coverage && !Opposed(s) && Floors(s) != []
  }

  /** Figures are missing from the quote, or the claim negates what a clause affirms. */
  predicate PartlySaid(s: Signals) {
    (s.claimNumbers && s.missingNumbers) || AnyAddsNegation(s, |s.clauses|)
  }

  /** A defect that calls for partial support only is looked for before one that calls for weak support. */
  predicate Masked(s: Signals) {
    && 0.6 <= s.coverage
    && (if PartlySaid(s) then s.dropsHedge || s.upgradesCorrelation
        else !s.dropsHedge && s.tightensQuantifier && s.upgradesCorrelation)
  }

  lemma {:induction false} LowestOf(floors: seq<Verdict>)
    requires forall i :: 0 <= i < |floors| ==> floors[i] == Weakly || floors[i] == Partially
    ensures Lowest(floors) == if floors == [] then Strongly else if Weakly in floors then Weakly else Partially
  {
    if floors != [] {
      var n := |floors| - 1;
      LowestOf(floors[..n]);
      assert floors == floors[..n] + [floors[n]];
    }
  }

  /** The rank of the verdict on a claim that nothing contradicts, in terms of what was found. */
  function Grade(s: Signals): nat {
    if s.coverage < 0.6 then 3
    else if PartlySaid(s) then 4
    else if s.dropsHedge then 3
    else if s.tightensQuantifier then 4
    else if s.upgradesCorrelation then 3
    else if 0.9 <= s.coverage && !s.claimNumbers && s.contained then 6
    else 5
  }

  lemma JudgedMeans(s: Signals)
    requires !s.emptySide && 0.34 <= s.coverage && !Opposed(s)
    ensures Judged(s).Rank() == Grade(s)
  {
  }

  lemma InEither(a: seq<Verdict>, b: seq<Verdict>, v: Verdict)
    ensures v in a + b <==> v in a || v in b
  {
  }

  lemma WeakFloors(s: Signals)
    ensures Weakly in Floors(s) <==>
      s.coverage < 0.6 || (s.claimNumbers && s.missingNumbers && s.quoteNumbers) || s.dropsHedge || s.upgradesCorrelation
  {
    var a := When(s.coverage < 0.6, Weakly);
    var b := a + When(s.claimNumbers && s.missingNumbers && s.quoteNumbers, Weakly);
    var c := b + When(s.claimNumbers && s.missingNumbers && !s.quoteNumbers, Partially);
    var d := c + When(AnyAddsNegation(s, |s.clauses|), Partially);
    var e := d + When(s.dropsHedge, Weakly);
    var f := e + When(s.tightensQuantifier, Partially);
    InEither(a, When(s.claimNumbers && s.missingNumbers && s.quoteNumbers, Weakly), Weakly);
    InEither(b, When(s.claimNumbers && s.missingNumbers && !s.quoteNumbers, Partially), Weakly);
    InEither(c, When(AnyAddsNegation(s, |s.clauses|), Partially), Weakly);
    InEither(d, When(s.dropsHedge, Weakly), Weakly);
    InEither(e, When(s.tightensQuantifier, Partially), Weakly);
    InEither(f, When(s.upgradesCorrelation, Weakly), Weakly);
    hide AnyAddsNegation;
  }

  lemma FloorsMasked(s: Signals)
    requires Graded(s)
    ensures Masked(s) <==> Floors(s)[0] == Partially && Weakly in Floors(s)
  {
    JudgedMeans(s);
    WeakFloors(s);
    assert Judged(s) == Floors(s)[0];
    assert s.claimNumbers && s.missingNumbers && s.quoteNumbers ==> s.coverage < 0.6;
    hide Floors;
    hide AnyAddsNegation;
    hide Judged;
  }

  /** The verdict is as low as the worst defect demands exactly when no defect that calls for partial
      support hides one that calls for weak support: what is found later is ignored. */
  lemma DegradesExactlyWhen(s: Signals)
    requires Graded(s)
    ensures Judged(s) == Lowest(Floors(s)) <==> !Masked(s)
    ensures Lowest(Floors(s)).Rank() <= Judged(s).Rank()
  {
    FloorsGrade(s);
    hide *;
    LowestOf(Floors(s));
    FloorsMasked(s);
    FirstCounts(s);
    LowestIsFirst(Floors(s));
  }

  lemma FloorsGrade(s: Signals)
    ensures forall i :: 0 <= i < |Floors(s)| ==> Floors(s)[i] == Weakly || Floors(s)[i] == Partially
  {
    hide AnyAddsNegation;
  }

  lemma FirstCounts(s: Signals)
    requires Graded(s)
    ensures Floors(s) != [] && Judged(s) == Floors(s)[0]
  {
    hide Floors;
    hide Opposed;
  }

  lemma LowestIsFirst(floors: seq<Verdict>)
    requires floors != [] && forall i :: 0 <= i < |floors| ==> floors[i] == Weakly || floors[i] == Partially
    requires Lowest(floors) == if Weakly in floors then Weakly else Partially
    ensures Lowest(floors) == floors[0] <==> !(floors[0] == Partially && Weakly in floors)
    ensures Lowest(floors).Rank() <= floors[0].Rank()
  {
    hide Lowest;
  }

  // ------------------------------------------------------------------ what a further defect does

  datatype Defect = MissingFigure | AddedNegation | DroppedHedge | TightenedQuantifier | UpgradedCorrelation

  /** A clause that affirms the topic. */
  const PLAIN_CLAUSE: Clause := Clause(true, false, false, false)

  /** The same claim and quote with one more defect: a figure the quote lacks, one more clause that
      affirms what the claim negates, and so on. */
  function With(s: Signals, d: Defect): Signals {
    match d
    case MissingFigure => s.(claimNumbers := true, missingNumbers := true)
    case AddedNegation => s.(claimNegated := true, clauses := s.clauses + [PLAIN_CLAUSE])
    case DroppedHedge => s.(dropsHedge := true)
    case TightenedQuantifier => s.(tightensQuantifier := true)
    case UpgradedCorrelation => s.(upgradesCorrelation := true)
  }

  /** Graded as weakly supporting because of a later test, not of its vocabulary. */
  predicate WeakLater(s: Signals) {
    && !s.emptySide && 0.6 <= s.coverage && !Opposed(s) && !PartlySaid(s)
    && (s.dropsHedge || (!s.tightensQuantifier && s.upgradesCorrelation))
  }

  lemma MoreClauses(s: Signals, c: Clause)
    requires s.claimNegated
    ensures var s1 := s.(clauses := s.clauses + [c]);
      && (Opposed(s1) <==> Opposed(s) || MovesAgainst(s, c))
      && (AnyAddsNegation(s1, |s1.clauses|) <==> AnyAddsNegation(s, |s.clauses|) || AddsNegation(s, c))
  {
    var s1 := s.(clauses := s.clauses + [c]);
    if Opposed(s) && !FigureConflict(s) {
      var i :| 0 <= i < |s.clauses| && ClauseContradicts(s, s.clauses[i]);
      assert ClauseContradicts(s1, s1.clauses[i]);
    }
    if AnyAddsNegation(s, |s.clauses|) {
      var i :| 0 <= i < |s.clauses| && AddsNegation(s, s.clauses[i]);
      assert AddsNegation(s1, s1.clauses[i]);
    }
    assert s1.clauses[|s.clauses|] == c;
    assert forall i :: 0 <= i < |s.clauses| ==> s1.clauses[i] == s.clauses[i];
    if MovesAgainst(s, c) {
      assert ClauseContradicts(s1, s1.clauses[|s.clauses|]);
    }
    if AddsNegation(s, c) {
      assert AddsNegation(s1, s1.clauses[|s.clauses|]);
    }
  }

  lemma SameOpposition(s: Signals, d: Defect)
    requires !d.AddedNegation? && (d.MissingFigure? ==> !s.quoteNumbers || s.coverage < 0.6)
    ensures Opposed(With(s, d)) <==> Opposed(s) || FigureConflict(With(s, d))
    ensures AnyAddsNegation(With(s, d), |s.clauses|) <==> AnyAddsNegation(s, |s.clauses|)
  {
    var s1 := With(s, d);
    assert forall c :: ClauseContradicts(s1, c) <==> ClauseContradicts(s, c);
    assert forall c :: AddsNegation(s1, c) <==> AddsNegation(s, c);
  }

  /** The defects that raise a verdict: those that call for partial support, if they come before the one
      that made the verdict weak. */
  predicate Raises(s: Signals, d: Defect) {
    && WeakLater(s)
    && match d
       case MissingFigure => !s.quoteNumbers
       case AddedNegation => true
       case TightenedQuantifier => !s.dropsHedge
       case _ => false
  }

  lemma ClauseAdded(s: Signals)
    requires s.claimNegated
    ensures With(s, AddedNegation) == s.(clauses := s.clauses + [PLAIN_CLAUSE])
  {
    assert s.(claimNegated := true) == s;
  }

  lemma MoreOpposed(s: Signals)
    requires s.claimNegated && Opposed(s)
    ensures Opposed(With(s, AddedNegation))
  {
    hide *;
    ClauseAdded(s);
    MoreClauses(s, PLAIN_CLAUSE);
  }

  lemma NegationFound(s: Signals)
    requires s.claimNegated && !Opposed(s)
    ensures !Opposed(With(s, AddedNegation)) && PartlySaid(With(s, AddedNegation))
  {
    ClauseAdded(s);
    hide With;
    hide Opposed;
    hide AnyAddsNegation;
    MoreClauses(s, PLAIN_CLAUSE);
  }

  lemma FurtherOpposed(s: Signals, d: Defect)
    requires d.AddedNegation? ==> s.claimNegated
    requires Opposed(s)
    ensures Opposed(With(s, d))
  {
    hide *;
    if d.AddedNegation? {
      MoreOpposed(s);
    } else {
      StillOpposed(s, d);
    }
  }

  lemma StillOpposed(s: Signals, d: Defect)
    requires !d.AddedNegation? && Opposed(s)
    ensures Opposed(With(s, d))
  {
    var s1 := With(s, d);
    assert FigureConflict(s) ==> FigureConflict(s1);
    assert s1.clauses == s.clauses && forall c :: ClauseContradicts(s1, c) <==> ClauseContradicts(s, c);
    hide With;
    hide FigureConflict;
    hide ClauseContradicts;
  }

  lemma OpposedNeverRises(s: Signals, d: Defect)
    requires Opposed(s) || s.emptySide || s.coverage < 0.34
    requires d.AddedNegation? ==> s.claimNegated
    ensures Judged(With(s, d)).Rank() <= Judged(s).Rank()
  {
    if Opposed(s) {
      FurtherOpposed(s, d);
    }
    hide Opposed;
    hide Floors;
  }

  /** What the further defect is found as. */
  lemma FoundWith(s: Signals, d: Defect)
    requires d.AddedNegation? ==> s.claimNegated
    requires !Opposed(s) && !(d.MissingFigure? && s.quoteNumbers && 0.6 <= s.coverage)
    ensures !Opposed(With(s, d))
    ensures PartlySaid(With(s, d)) <==> PartlySaid(s) || d.MissingFigure? || d.AddedNegation?
  {
    assert !FigureConflict(s);
    hide Opposed;
    hide AnyAddsNegation;
    if d.AddedNegation? {
      NegationFound(s);
    } else {
      SameOpposition(s, d);
    }
  }

  lemma SameCoverage(s: Signals, d: Defect)
    ensures With(s, d).emptySide == s.emptySide && With(s, d).coverage == s.coverage
  {
    match d
    case MissingFigure =>
    case AddedNegation =>
    case DroppedHedge =>
    case TightenedQuantifier =>
    case UpgradedCorrelation =>
  }

  lemma GradeRises(s: Signals, d: Defect)
    requires !Opposed(s) && !s.emptySide
    requires PartlySaid(With(s, d)) <==> PartlySaid(s) || d.MissingFigure? || d.AddedNegation?
    requires !(d.MissingFigure? && s.quoteNumbers && 0.6 <= s.coverage)
    ensures Grade(s) < Grade(With(s, d)) <==> Raises(s, d)
    ensures Raises(s, d) ==> Grade(s) == 3 && Grade(With(s, d)) == 4
  {
    hide Opposed;
    hide PartlySaid;
  }

  lemma GradedRises(s: Signals, d: Defect)
    requires !Opposed(s) && !s.emptySide && 0.34 <= s.coverage
    requires d.AddedNegation? ==> s.claimNegated
    requires !(d.MissingFigure? && s.quoteNumbers && 0.6 <= s.coverage)
    ensures Judged(s).Rank() < Judged(With(s, d)).Rank() <==> Raises(s, d)
    ensures Raises(s, d) ==> Judged(s).Rank() == 3 && Judged(With(s, d)).Rank() == 4
  {
    hide *;
    JudgedMeans(s);
    FoundWith(s, d);
    SameCoverage(s, d);
    JudgedMeans(With(s, d));
    GradeRises(s, d);
  }

  lemma FigureNeverRises(s: Signals)
    requires !Opposed(s) && !s.emptySide && s.quoteNumbers && 0.6 <= s.coverage
    ensures Judged(With(s, MissingFigure)).Rank() <= Judged(s).Rank()
  {
    JudgedMeans(s);
    assert FigureConflict(With(s, MissingFigure));
    hide Floors;
    hide PartlySaid;
  }

  /** Ambiguity is meant only to degrade a verdict: a further defect raises it exactly when it calls for
      partial support and is looked for before the defect that made the verdict weak. The claim then
      may feed synthesis, which it might not before. */
  lemma RaisesExactlyWhen(s: Signals, d: Defect)
    requires d.AddedNegation? ==> s.claimNegated
    ensures Judged(s).Rank() < Judged(With(s, d)).Rank() <==> Raises(s, d)
    ensures Raises(s, d) ==> Judged(s).Rank() == 3 && Judged(With(s, d)).Rank() == 4
  {
    if Opposed(s) || s.emptySide || s.coverage < 0.34 {
      OpposedNeverRises(s, d);
    } else if d.MissingFigure? && s.quoteNumbers && 0.6 <= s.coverage {
      FigureNeverRises(s);
    } else {
      GradedRises(s, d);
    }
    hide Judged;
    hide Opposed;
    hide PartlySaid;
  }

  /** A claim that drops the hedging of its quote, whose only clause shares the topic. */
  const UNHEDGED: Signals :=
    Signals(false, 0.8, false, false, false, false, false, false, false, [Clause(true, false, false, false)], true, false, false, false)

  /** The claim without hedging may not feed synthesis; with a figure that is missing from the quote
      besides, it may. */
  lemma DefectRaisesVerdict()
    ensures Judged(UNHEDGED) == Weakly && Judged(With(UNHEDGED, MissingFigure)) == Partially
    ensures !Judged(UNHEDGED).Supports() && Judged(With(UNHEDGED, MissingFigure)).Supports()
  {
    RaisesExactlyWhen(UNHEDGED, MissingFigure);
    assert Raises(UNHEDGED, MissingFigure);
    hide Judged;
  }

  /** A claim may feed synthesis exactly when nothing contradicts it, it has enough of the quote's
      vocabulary, and the first of its defects, if any, calls for partial support. */
  lemma SupportsExactlyWhen(s: Signals)
    ensures Judged(s).Supports() <==>
      && !s.emptySide && 0.6 <= s.coverage && !Opposed(s)
      && ((s.claimNumbers && s.missingNumbers)
          || AnyAddsNegation(s, |s.clauses|)
          || (!s.dropsHedge && (s.tightensQuantifier || !s.upgradesCorrelation)))
  {
  }

  // ------------------------------------------------------------------ the evidence life cycle

  datatype EvidenceStatus = Extracted | Supported | WeaklySupported | Contradicted | Unverified | Rejected

  /** A clause about the claim's topic that denies what the claim does not deny, or moves the other way in a
      contrast. */
  predicate SaysOpposite(s: Signals, c: Clause) {
    && c.sharesTopic
    && ((c.negated && !s.claimNegated) || (s.contrast && ((s.claimUp && c.down) || (s.claimDown && c.up))))
  }

  /** Which signals lead to a verdict that does not grade the support. */
  lemma OutcomesExactlyWhen(s: Signals)
    ensures Judged(s) == Neutral <==> s.emptySide
    ensures Judged(s) == Unrelated <==> !s.emptySide && s.coverage < 0.34
    ensures Judged(s) == Contradicts <==>
      && !s.emptySide && 0.34 <= s.coverage
      && ((0.6 <= s.coverage && s.claimNumbers && s.missingNumbers && s.quoteNumbers)
          || exists i :: 0 <= i < |s.clauses| && SaysOpposite(s, s.clauses[i]))
  {
    assert Opposed(s) <==> FigureConflict(s) || exists i :: 0 <= i < |s.clauses| && SaysOpposite(s, s.clauses[i]) by {
      assert forall i :: 0 <= i < |s.clauses| ==> (SaysOpposite(s, s.clauses[i]) <==> ClauseContradicts(s, s.clauses[i]));
    }
    FloorsGrade(s);
    hide Floors;
    hide Opposed;
    hide SaysOpposite;
  }

  /** A clause that agrees with the claim: about something else, or neither denied differently nor moving
      the other way in a contrast. */
  predicate Agrees(s: Signals, c: Clause) {
    c.sharesTopic ==>
      && c.negated == s.claimNegated
      && !(s.contrast && ((s.claimUp && c.down) || (s.claimDown && c.up)))
  }

  /** Support is full exactly when most of the claim is covered, no figure is missing, every clause agrees,
      and the claim is not bolder than its quote. */
  lemma FullSupportExactlyWhen(s: Signals)
    ensures Judged(s) == Entails || Judged(s) == Strongly <==>
      && !s.emptySide && 0.6 <= s.coverage && !(s.claimNumbers && s.missingNumbers)
      && (forall i :: 0 <= i < |s.clauses| ==> Agrees(s, s.clauses[i]))
      && !s.dropsHedge && !s.tightensQuantifier && !s.upgradesCorrelation
  {
    assert forall i :: 0 <= i < |s.clauses| ==>
      (Agrees(s, s.clauses[i]) <==> !ClauseContradicts(s, s.clauses[i]) && !AddsNegation(s, s.clauses[i]));
    hide Agrees;
    hide ClauseContradicts;
    hide AddsNegation;
  }

  function StatusFor(status: EvidenceStatus, verdict: Verdict): EvidenceStatus {
    if verdict == Contradicts || verdict == Unrelated then Rejected
    else if verdict == Neutral && status == Extracted then Unverified
    else status
  }
}
