/** What lowers a score, and by how much: contradictions and age for a claim, opposition and defects
    for a hypothesis. */
module Penalties {
  import opened Options
  import opened Strength

  function Contradicting(e: Item): Item {
    e.(contradicted := true)
  }

  /** The list with one piece found contradicted. */
  function Marked(items: seq<Item>, i: nat): seq<Item>
    requires i < |items|
  {
    items[i := Contradicting(items[i])]
  }

  /** How many accepted pieces are contradicted. */
  function Disputed(items: seq<Item>): nat {
    if items == [] then 0
    else
      var last := items[|items| - 1];
      Disputed(items[..|items| - 1]) + (if !last.rejected && last.contradicted then 1 else 0)
  }

  /** What one more contradicted piece costs beside k others. */
  function Cost(k: nat): real {
    if k <= 2 then 0.15 else if k == 3 then 0.05 else 0.0
  }

  // ------------------------------------------------------------------ lists that differ in contradictions only

  predicate Alike(a: Item, b: Item) {
    b == a.(contradicted := b.contradicted)
  }

  predicate AllAlike(a: seq<Item>, b: seq<Item>) {
    |a| == |b| && forall k :: 0 <= k < |a| ==> Alike(a[k], b[k])
  }

  lemma {:induction false} DisputedCounts(items: seq<Item>)
    ensures Disputed(items) == Count(Keep(items, Accepted), IsContradicted)
  {
    if items != [] {
      var n := |items| - 1;
      DisputedCounts(items[..n]);
      var kept := Keep(items[..n], Accepted);
      assert (kept + [items[n]])[..|kept|] == kept;
    }
  }

  lemma {:induction false} KeepAlike(a: seq<Item>, b: seq<Item>, p: Item -> bool)
    requires AllAlike(a, b) && forall k :: 0 <= k < |a| ==> p(a[k]) == p(b[k])
    ensures AllAlike(Keep(a, p), Keep(b, p))
  {
    if a != [] {
      var n := |a| - 1;
      KeepAlike(a[..n], b[..n], p);
      hide Keep;
      AlikeAppend(Keep(a[..n], p), Keep(b[..n], p), a[n], b[n]);
      KeepLast(a, p);
      KeepLast(b, p);
    }
  }

  lemma KeepLast(s: seq<Item>, p: Item -> bool)
    requires s != []
    ensures var n := |s| - 1; Keep(s, p) == if p(s[n]) then Keep(s[..n], p) + [s[n]] else Keep(s[..n], p)
  {
  }

  lemma AlikeAppend(a: seq<Item>, b: seq<Item>, x: Item, y: Item)
    requires AllAlike(a, b) && Alike(x, y)
    ensures AllAlike(a + [x], b + [y])
  {
  }

  lemma {:induction false} MeasuresAlike(a: seq<Item>, b: seq<Item>)
    requires AllAlike(a, b)
    ensures BestWeight(a) == BestWeight(b) && TotalConfidence(a) == TotalConfidence(b) && LatestYear(a) == LatestYear(b)
  {
    if a != [] {
      var n := |a| - 1;
      MeasuresAlike(a[..n], b[..n]);
      assert Alike(a[n], b[n]);
      assert Weight(a[n]) == Weight(b[n]);
      hide Weight;
    }
  }

  lemma AloneAlike(a: seq<Item>, b: seq<Item>, i: nat)
    requires AllAlike(a, b) && i < |a|
    ensures Alone(multiset(a), a[i]) <==> Alone(multiset(b), b[i])
  {
    AloneByIndex(a, i);
    AloneByIndex(b, i);
    hide Alone;
    assert Alike(a[i], b[i]);
    forall k | 0 <= k < |a| ensures ClearlyDependent(a[i], a[k]) <==> ClearlyDependent(b[i], b[k]) {
      assert Alike(a[k], b[k]);
    }
  }

  lemma {:induction false} CountsAlike(a: seq<Item>, b: seq<Item>, p: Item -> bool, q: Item -> bool)
    requires |a| == |b| && forall k :: 0 <= k < |a| ==> p(a[k]) == q(b[k])
    ensures Count(a, p) == Count(b, q)
  {
    if a != [] {
      CountsAlike(a[..|a| - 1], b[..|b| - 1], p, q);
    }
  }

  lemma IndependentsAlike(a: seq<Item>, b: seq<Item>)
    requires AllAlike(a, b)
    ensures Independents(a) == Independents(b)
  {
    forall k | 0 <= k < |a| ensures AloneIn(multiset(a))(a[k]) == AloneIn(multiset(b))(b[k]) {
      AloneAlike(a, b, k);
    }
    CountsAlike(a, b, AloneIn(multiset(a)), AloneIn(multiset(b)));
  }

  lemma PoolAlike(a: seq<Item>, b: seq<Item>)
    requires AllAlike(a, b)
    ensures AllAlike(Pool(a), Pool(b))
  {
    KeepAlike(a, b, Strong);
  }

  // ------------------------------------------------------------------ scores

  /** The score before it is clamped, apart from contradictions. */
  function Merit(accepted: seq<Item>, thisYear: int): real
    requires accepted != []
  {
    Trusted(BestWeight(accepted), Average(TotalConfidence(accepted), |accepted|)) + Boost(Independents(Pool(accepted)))
    - (1.0 - Recency(LatestYear(accepted), thisYear)) * 0.15
  }

  function Penalty(k: nat): real {
    Min(0.5, 0.15 * k as real)
  }

  lemma MeritAlike(a: seq<Item>, b: seq<Item>, thisYear: int)
    requires AllAlike(a, b) && a != []
    ensures Merit(a, thisYear) == Merit(b, thisYear)
  {
    MeasuresAlike(a, b);
    PoolAlike(a, b);
    IndependentsAlike(Pool(a), Pool(b));
    hide Pool;
    hide Independents;
    hide BestWeight;
    hide TotalConfidence;
    hide LatestYear;
  }

  predicate NoneAccepted(items: seq<Item>) {
    Keep(items, Accepted) == []
  }

  /** The merit of what is accepted of a list. */
  function MeritOf(items: seq<Item>, thisYear: int): real {
    var accepted := Keep(items, Accepted);
    if accepted == [] then 0.0 else Merit(accepted, thisYear)
  }

  lemma ScoreMeans(items: seq<Item>, thisYear: int)
    ensures Score(items, thisYear) == if NoneAccepted(items) then 0.0 else Clamp(MeritOf(items, thisYear) - Penalty(Disputed(items)))
  {
    DisputedCounts(items);
    hide Keep;
    hide Count;
    hide Disputed;
    hide Independents;
    hide BestWeight;
    hide TotalConfidence;
    hide LatestYear;
    hide Trusted;
    hide Recency;
  }

  lemma {:induction false} MarkedDisputed(items: seq<Item>, i: nat)
    requires i < |items| && !items[i].rejected && !items[i].contradicted
    ensures Disputed(Marked(items, i)) == Disputed(items) + 1
  {
    var n := |items| - 1;
    if i < n {
      MarkedDisputed(items[..n], i);
      assert Marked(items, i)[..n] == Marked(items[..n], i);
    } else {
      assert Marked(items, i)[..n] == items[..n];
    }
  }

  lemma MarkedMerit(items: seq<Item>, i: nat, thisYear: int)
    requires i < |items| && !items[i].rejected
    ensures !NoneAccepted(items) && !NoneAccepted(Marked(items, i))
    ensures MeritOf(Marked(items, i), thisYear) == MeritOf(items, thisYear)
  {
    KeepAlike(items, Marked(items, i), Accepted);
    KeepsAccepted(items, i);
    hide Keep;
    hide Merit;
    MeritAlike(Keep(items, Accepted), Keep(Marked(items, i), Accepted), thisYear);
  }

  /** Both scores of a list and of the same list with one more contradiction. */
  lemma MarkedMeans(items: seq<Item>, i: nat, thisYear: int)
    requires i < |items| && !items[i].rejected && !items[i].contradicted
    ensures Score(items, thisYear) == Clamp(MeritOf(items, thisYear) - Penalty(Disputed(items)))
    ensures Score(Marked(items, i), thisYear) == Clamp(MeritOf(items, thisYear) - Penalty(Disputed(items) + 1))
  {
    hide *;
    MarkedMerit(items, i, thisYear);
    MarkedDisputed(items, i);
    ScoreMeans(items, thisYear);
    ScoreMeans(Marked(items, i), thisYear);
  }

  lemma {:induction false} KeepsAccepted(items: seq<Item>, i: nat)
    requires i < |items| && !items[i].rejected
    ensures Keep(items, Accepted) != []
  {
    if i < |items| - 1 {
      KeepsAccepted(items[..|items| - 1], i);
    }
  }

  /** Finding an accepted piece contradicted never raises the score of its claim, and lowers it by exactly
      0.15 where at most two others are contradicted, by 0.05 beside three, and by nothing beside more, as
      long as neither score is at an end of the scale. */
  lemma ContradictionCosts(items: seq<Item>, i: nat, thisYear: int)
    requires i < |items| && !items[i].rejected && !items[i].contradicted
    ensures var before, after := Score(items, thisYear), Score(Marked(items, i), thisYear);
      && before - Cost(Disputed(items)) <= after <= before
      && (before < 1.0 && 0.0 < after ==> after == before - Cost(Disputed(items)))
  {
    hide *;
    MarkedMeans(items, i, thisYear);
    PenaltyGrows(Disputed(items));
    ClampedDifference(MeritOf(items, thisYear) - Penalty(Disputed(items)), Cost(Disputed(items)));
  }

  lemma ClampedDifference(x: real, cost: real)
    requires 0.0 <= cost
    ensures Clamp(x) - cost <= Clamp(x - cost) <= Clamp(x)
    ensures Clamp(x) < 1.0 && 0.0 < Clamp(x - cost) ==> Clamp(x - cost) == Clamp(x) - cost
  {
  }

  lemma PenaltyGrows(k: nat)
    ensures Penalty(k + 1) == Penalty(k) + Cost(k)
    ensures 0.0 <= Cost(k) && 0.0 <= Penalty(k) <= 0.5
  {
  }

  predicate Confident(items: seq<Item>) {
    forall e :: e in items ==> e.confidence <= 1.0
  }

  lemma CertainBounds(items: seq<Item>)
    requires Confident(items)
    ensures AllBounded(items, 1.0)
  {
    forall e | e in items ensures Bounded(e, 1.0) {
      GradeBounds(e, 1, Entails);
    }
  }

  lemma MeritBound(accepted: seq<Item>, thisYear: int)
    requires accepted != [] && Confident(accepted)
    ensures Merit(accepted, thisYear) <= 1.35
  {
    CertainBounds(accepted);
    MeasuresBounded(accepted, 1.0);
    AverageBound(TotalConfidence(accepted), |accepted|);
    TrustedAtMost(BestWeight(accepted), Average(TotalConfidence(accepted), |accepted|));
    RecencyInRange(LatestYear(accepted), thisYear);
    hide Average;
    hide Trusted;
    hide Independents;
    hide Recency;
    hide BestWeight;
    hide TotalConfidence;
  }

  lemma ClampedAtMost(merit: real, penalty: real)
    requires merit <= 1.35 && penalty <= 0.5
    ensures Clamp(merit - penalty) <= 1.35 - penalty
  {
  }

  /** However good and however many its pieces, k contradictions keep a claim's score down. */
  lemma DisputedBound(items: seq<Item>, thisYear: int)
    requires Confident(items)
    ensures Score(items, thisYear) <= 1.35 - Penalty(Disputed(items))
  {
    hide *;
    ConfidentMerit(items, thisYear);
    ScoreMeans(items, thisYear);
    PenaltyGrows(Disputed(items));
    ClampedAtMost(MeritOf(items, thisYear), Penalty(Disputed(items)));
  }

  lemma ConfidentMerit(items: seq<Item>, thisYear: int)
    requires Confident(items)
    ensures MeritOf(items, thisYear) <= 1.35
  {
    var accepted := Keep(items, Accepted);
    if accepted != [] {
      assert Confident(accepted);
      MeritBound(accepted, thisYear);
    }
    hide Keep;
    hide Merit;
  }

  lemma PrimaryMerit(e: Item, thisYear: int)
    requires Primary(e)
    ensures MeritOf([e], thisYear) == Trusted(e.confidence, e.confidence) - (1.0 - Recency(e.year, thisYear)) * 0.15
  {
    var one := [e];
    OneKept(e, Accepted);
    OneKept(e, Strong);
    OneKept(e, AloneIn(multiset(one)));
    OneMeasured(e);
    AverageBound(e.confidence, 1);
    assert Positive(Weight(e)) == e.confidence;
    hide Keep;
    hide Count;
    hide Weight;
    hide Recency;
    hide Average;
    hide BestWeight;
    hide TotalConfidence;
    hide LatestYear;
    hide Trusted;
    assert Pool(one) == one;
    assert Independents(one) <= 1;
    hide Independents;
  }

  lemma OneMarked(e: Item)
    requires Primary(e)
    ensures !e.rejected && !e.contradicted
    ensures Marked([e], 0) == [Contradicting(e)] && Disputed([e]) == 0 && Penalty(1) == 0.15
  {
    assert [e][..0] == [];
  }

  /** A lone primary study that is contradicted scores 0.15 less than its confidence and age are worth. */
  lemma DisputedPrimaryScore(e: Item, thisYear: int)
    requires Primary(e)
    ensures Score([Contradicting(e)], thisYear)
      == Clamp(Trusted(e.confidence, e.confidence) - (1.0 - Recency(e.year, thisYear)) * 0.15 - 0.15)
  {
    hide *;
    OneMarked(e);
    MarkedMeans([e], 0, thisYear);
    PrimaryMerit(e, thisYear);
  }

  // ------------------------------------------------------------------ age

  /** The newest accepted piece is of this year. */
  predicate NewestIs(items: seq<Item>, year: int) {
    && (exists k :: 0 <= k < |items| && !items[k].rejected && items[k].year == Some(year))
    && (forall k :: 0 <= k < |items| && !items[k].rejected && items[k].year.Some? ==> items[k].year.value <= year)
  }

  predicate Undated(items: seq<Item>) {
    forall k :: 0 <= k < |items| && !items[k].rejected ==> items[k].year == None
  }

  lemma {:induction false} UndatedLatest(items: seq<Item>)
    requires Undated(items)
    ensures LatestYear(Keep(items, Accepted)) == None
  {
    if items != [] {
      var n := |items| - 1;
      UndatedLatest(items[..n]);
      LatestOfKept(items);
      hide Keep;
    }
  }

  lemma LatestOfKept(items: seq<Item>)
    requires items != []
    ensures var n := |items| - 1; var before := LatestYear(Keep(items[..n], Accepted));
      LatestYear(Keep(items, Accepted)) == if items[n].rejected then before else Later(before, items[n].year)
  {
    var kept, n := Keep(items[..|items| - 1], Accepted), |items| - 1;
    assert (kept + [items[n]])[..|kept|] == kept;
  }

  lemma {:induction false} NewestLatest(items: seq<Item>, year: int)
    requires NewestIs(items, year)
    ensures LatestYear(Keep(items, Accepted)) == Some(year)
  {
    hide Keep;
    hide LatestYear;
    var n := |items| - 1;
    var before := items[..n];
    LatestOfKept(items);
    assert forall k :: 0 <= k < n ==> before[k] == items[k];
    if NewestIs(before, year) {
      NewestLatest(before, year);
    } else {
      OlderLatest(before, year);
      assert !items[n].rejected && items[n].year == Some(year);
    }
  }

  lemma {:induction false} OlderLatest(items: seq<Item>, year: int)
    requires forall k :: 0 <= k < |items| && !items[k].rejected && items[k].year.Some? ==> items[k].year.value <= year
    ensures var latest := LatestYear(Keep(items, Accepted)); latest.Some? ==> latest.value <= year
  {
    if items != [] {
      OlderLatest(items[..|items| - 1], year);
      LatestOfKept(items);
      hide Keep;
    }
  }

  /** What the turn of a year costs evidence whose newest piece is of the given year. */
  function Ageing(year: int, thisYear: int): real {
    if year <= thisYear < year + 12 then 0.0125 else 0.0
  }

  /** The merit of what is accepted, but for its age. */
  function Timeless(items: seq<Item>): real {
    var accepted := Keep(items, Accepted);
    if accepted == [] then 0.0
    else Trusted(BestWeight(accepted), Average(TotalConfidence(accepted), |accepted|)) + Boost(Independents(Pool(accepted)))
  }

  lemma AgedMerit(items: seq<Item>, thisYear: int)
    requires !NoneAccepted(items)
    ensures MeritOf(items, thisYear) == Timeless(items) - (1.0 - Recency(LatestYear(Keep(items, Accepted)), thisYear)) * 0.15
  {
    hide Keep;
    hide BestWeight;
    hide TotalConfidence;
    hide LatestYear;
    hide Independents;
    hide Trusted;
    hide Recency;
    hide Average;
  }

  lemma RecencyFalls(year: int, thisYear: int)
    ensures (1.0 - Recency(Some(year), thisYear + 1)) * 0.15 == (1.0 - Recency(Some(year), thisYear)) * 0.15 + Ageing(year, thisYear)
  {
  }

  lemma NewestAccepted(items: seq<Item>, year: int)
    requires NewestIs(items, year)
    ensures !NoneAccepted(items)
  {
    var k :| 0 <= k < |items| && !items[k].rejected && items[k].year == Some(year);
    KeepsAccepted(items, k);
  }

  lemma TurnOfYear(items: seq<Item>, year: int, thisYear: int)
    requires NewestIs(items, year)
    ensures !NoneAccepted(items) && MeritOf(items, thisYear + 1) == MeritOf(items, thisYear) - Ageing(year, thisYear)
  {
    NewestAccepted(items, year);
    NewestLatest(items, year);
    hide Keep;
    hide Recency;
    hide Ageing;
    hide Timeless;
    hide MeritOf;
    hide NoneAccepted;
    hide NewestIs;
    AgedMerit(items, thisYear);
    AgedMerit(items, thisYear + 1);
    RecencyFalls(year, thisYear);
  }

  /** Evidence never gains by age: each year up to the twelfth takes 0.0125 off the score, by the newest
      accepted piece, as long as neither score is at an end of the scale. */
  lemma AgeCosts(items: seq<Item>, year: int, thisYear: int)
    requires NewestIs(items, year)
    ensures var before, after := Score(items, thisYear), Score(items, thisYear + 1);
      && before - Ageing(year, thisYear) <= after <= before
      && (before < 1.0 && 0.0 < after ==> after == before - Ageing(year, thisYear))
  {
    hide *;
    TurnOfYear(items, year, thisYear);
    ScoreMeans(items, thisYear);
    ScoreMeans(items, thisYear + 1);
    assert 0.0 <= Ageing(year, thisYear) by { AgeingNotNegative(year, thisYear); }
    ClampedDifference(MeritOf(items, thisYear) - Penalty(Disputed(items)), Ageing(year, thisYear));
  }

  lemma AgeingNotNegative(year: int, thisYear: int)
    ensures 0.0 <= Ageing(year, thisYear)
  {
  }

  /** Evidence without a date does not age. */
  lemma UndatedNeverAges(items: seq<Item>, thisYear: int, otherYear: int)
    requires Undated(items)
    ensures Score(items, thisYear) == Score(items, otherYear)
  {
    UndatedLatest(items);
    hide Keep;
    hide Recency;
    hide Timeless;
    hide MeritOf;
    hide Undated;
    hide Score;
    hide Disputed;
    ScoreMeans(items, thisYear);
    ScoreMeans(items, otherYear);
    if !NoneAccepted(items) {
      AgedMerit(items, thisYear);
      AgedMerit(items, otherYear);
      RecencyUnknown(thisYear, otherYear);
    }
  }

  lemma RecencyUnknown(thisYear: int, otherYear: int)
    ensures Recency(None, thisYear) == Recency(None, otherYear)
    ensures (1.0 - Recency(None, thisYear)) * 0.15 == 0.06
  {
  }

  /** It counts 0.06 less than new evidence. */
  lemma UndatedPrimaryScore(e: Item, thisYear: int)
    requires Primary(e) && e.year == None
    ensures Score([e], thisYear) == Clamp(Trusted(e.confidence, e.confidence) - 0.06)
  {
    hide *;
    PrimaryScore(e, thisYear);
    RecencyUnknown(thisYear, thisYear);
  }

  // ------------------------------------------------------------------ hypotheses

  /** Evidence against a hypothesis takes three quarters of its best weight off the confidence, half a
      point at most, as long as neither confidence is at an end of the scale; it never raises it. */
  lemma OppositionCosts(sup: seq<Item>, con: seq<Item>, defects: nat)
    requires sup != []
    ensures var before, after, cost := ConfidenceIn(sup, [], defects), ConfidenceIn(sup, con, defects), Min(0.5, 0.75 * BestWeight(con));
      && before - cost <= after <= before
      && (before < 1.0 && 0.0 < after ==> after == before - cost)
  {
    WeightsNotNegative(con);
    assert OppositionOf([]) == 0.0;
    assert 0.5 * OppositionOf(con) == Min(0.5, 0.75 * BestWeight(con));
    hide BestWeight;
    hide SupportOf;
    ClampedDifference(SupportOf(sup) - 0.1 * defects as real, 0.5 * OppositionOf(con));
  }

  /** Every defect the critic finds takes 0.1 off, as long as neither confidence is at an end of the scale. */
  lemma DefectCosts(sup: seq<Item>, con: seq<Item>, defects: nat)
    requires sup != []
    ensures var before, after := ConfidenceIn(sup, con, defects), ConfidenceIn(sup, con, defects + 1);
      && before - 0.1 <= after <= before
      && (before < 1.0 && 0.0 < after ==> after == before - 0.1)
  {
    hide SupportOf;
    hide OppositionOf;
    ClampedDifference(SupportOf(sup) - 0.5 * OppositionOf(con) - 0.1 * defects as real, 0.1);
  }

  /** What one primary study that entails a hypothesis makes of it, and that nothing does without support. */
  lemma SupportCounts(e: Item, con: seq<Item>, defects: nat)
    requires Primary(e)
    ensures ConfidenceIn([e], [], 0) == e.confidence
    ensures ConfidenceIn([], con, defects) == 0.0
  {
    OneMeasured(e);
    OneKept(e, AloneIn(multiset([e])));
    assert Weight(e) == e.confidence;
    assert Independents([e]) <= 1;
    WeightsNotNegative(con);
    assert BestWeight([]) == 0.0;
    hide BestWeight;
    hide Independents;
    hide Weight;
  }
}
