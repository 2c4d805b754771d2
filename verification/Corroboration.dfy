/** What further sources add to a score: 0.12 for a second independent one, 0.24 for a third, never more
    than 0.35, and only among pieces that support the claim as strongly. */
module Corroboration {
  import opened Options
  import opened Strength

  /** What n independent sources add to one. */
  function Bonus(n: nat): real {
    if n <= 1 then 0.0 else if n == 2 then 0.12 else if n == 3 then 0.24 else 0.35
  }

  lemma BonusIsBoost(n: nat)
    ensures Boost(n) == Bonus(n)
  {
  }

  lemma AllCertain(n: nat)
    requires 1 <= n
    ensures Average(Times(n, 1.0), n) == 1.0
  {
    assert Times(n, 1.0) == n as real;
  }

  lemma NewAndUndisputed(best: real, n: nat, thisYear: int)
    ensures Combined(best, 1.0, n, 0, Recency(Some(thisYear), thisYear)) == Clamp(best + Bonus(n))
  {
    BonusIsBoost(n);
    assert Trusted(best, 1.0) == best;
    hide Bonus;
    hide Boost;
    hide Trusted;
    hide Clamp;
  }

  lemma StudiesCount(tier: int, support: Support, n: nat, thisYear: int)
    ensures |Studies(tier, support, 1.0, n, thisYear)| == n
  {
  }

  lemma SupportMeans(sup: seq<Item>)
    requires sup != []
    ensures SupportOf(sup) == Min(1.0, BestWeight(sup) + Boost(Independents(sup)))
  {
  }

  /** Independent pieces of one kind, certain and new. */
  lemma StudiesScore(tier: int, support: Support, n: nat, thisYear: int)
    requires 1 <= n
    ensures Score(Studies(tier, support, 1.0, n, thisYear), thisYear) == Clamp(GradeWeight(tier, support) + Bonus(n))
  {
    hide *;
    var r := Studies(tier, support, 1.0, n, thisYear);
    assert |r| == n by { StudiesCount(tier, support, n, thisYear); }
    StudiesMeasured(tier, support, 1.0, n, thisYear);
    StudiesIndependent(tier, support, 1.0, n, thisYear);
    StudiesAccepted(tier, support, 1.0, n, thisYear);
    ScoreOfAccepted(r, thisYear);
    AllCertain(n);
    NewAndUndisputed(GradeWeight(tier, support), n, thisYear);
  }

  /** A hypothesis is supported by them as much. */
  lemma StudiesSupport(tier: int, support: Support, n: nat, thisYear: int)
    requires 1 <= n
    ensures SupportOf(Studies(tier, support, 1.0, n, thisYear)) == Min(1.0, GradeWeight(tier, support) + Bonus(n))
  {
    hide *;
    var r := Studies(tier, support, 1.0, n, thisYear);
    assert |r| == n by { StudiesCount(tier, support, n, thisYear); }
    StudiesMeasured(tier, support, 1.0, n, thisYear);
    StudiesIndependent(tier, support, 1.0, n, thisYear);
    BonusIsBoost(n);
    SupportMeans(r);
  }

  // ------------------------------------------------------------------ the order of grades

  /** From full support down to none. */
  function Standing(support: Support): nat {
    match support
    case Entails => 6 case Strongly => 5 case NoVerdict => 4 case Partially => 3
    case Weakly => 2 case Neutral => 1 case Contradicts | Unrelated => 0
  }

  function Lone(tier: int, support: Support, thisYear: int): real {
    Score(Studies(tier, support, 1.0, 1, thisYear), thisYear)
  }

  lemma LoneMeans(tier: int, support: Support, thisYear: int)
    ensures Lone(tier, support, thisYear) == GradeWeight(tier, support)
  {
    StudiesScore(tier, support, 1, thisYear);
    GradeWeightInRange(tier, support);
    hide Score;
    hide Studies;
    hide GradeWeight;
  }

  /** What a single certain and new piece scores: by its tier, as far as it supports the claim. */
  lemma LoneScores(tier: int, support: Support, thisYear: int)
    ensures Lone(tier, support, thisYear) == Lone(tier, Entails, thisYear) * Lone(1, support, thisYear)
    ensures Lone(tier, Entails, thisYear)
      == match tier case 1 => 1.0 case 2 => 0.8 case 3 => 0.55 case 4 => 0.35 case _ => 0.2
    ensures Lone(1, support, thisYear)
      == match support
         case Entails => 1.0 case Strongly => 0.9 case NoVerdict => 0.7 case Partially => 0.6
         case Weakly => 0.3 case Neutral => 0.1 case _ => 0.0
  {
    LoneMeans(tier, support, thisYear);
    LoneMeans(tier, Entails, thisYear);
    LoneMeans(1, support, thisYear);
    hide Lone;
  }

  /** A single certain and new piece scores more than another of the same tier exactly when it supports the
      claim better, and more than one with the same support exactly when its tier is better, unless
      neither supports anything. */
  lemma BetterScoresHigher(tier: int, support: Support, other: int, less: Support, thisYear: int)
    requires 1 <= tier <= 5 && 1 <= other <= 5
    ensures Lone(tier, less, thisYear) < Lone(tier, support, thisYear) <==> Standing(less) < Standing(support)
    ensures Lone(other, support, thisYear) < Lone(tier, support, thisYear) <==> tier < other && 0 < Standing(support)
    ensures Lone(tier, support, thisYear) == 0.0 <==> Standing(support) == 0
  {
    LoneMeans(tier, support, thisYear);
    LoneMeans(tier, less, thisYear);
    LoneMeans(other, support, thisYear);
    hide Lone;
    GradesOrdered(tier, support, less);
    TiersOrdered(tier, other, support);
  }

  lemma GradesOrdered(tier: int, support: Support, less: Support)
    ensures GradeWeight(tier, less) < GradeWeight(tier, support) <==> Standing(less) < Standing(support)
    ensures GradeWeight(tier, support) == 0.0 <==> Standing(support) == 0
  {
    var t, f, g := TierWeight(tier), Factor(support), Factor(less);
    assert g < f <==> Standing(less) < Standing(support);
    Scaled(t, g, f);
    Scaled(t, f, g);
    Scaled(t, 0.0, f);
  }

  lemma Scaled(t: real, a: real, b: real)
    requires 0.0 < t
    ensures a < b ==> t * a < t * b
    ensures a == b ==> t * a == t * b
  {
    assert t * b - t * a == t * (b - a);
  }

  lemma TiersOrdered(tier: int, other: int, support: Support)
    requires 1 <= tier <= 5 && 1 <= other <= 5
    ensures GradeWeight(other, support) < GradeWeight(tier, support) <==> tier < other && 0 < Standing(support)
  {
    var f := Factor(support);
    assert TierWeight(other) < TierWeight(tier) <==> tier < other;
    if f == 0.0 {
      assert Standing(support) == 0;
    } else {
      Scaled(f, TierWeight(other), TierWeight(tier));
      Scaled(f, TierWeight(tier), TierWeight(other));
      assert TierWeight(other) == TierWeight(tier) <==> tier == other;
    }
  }

  // ------------------------------------------------------------------ two pieces

  /** One place: the same source, or the same site. */
  predicate FromOnePlace(a: Item, b: Item) {
    a.url != "" && b.url != "" && (a.source == b.source || (a.domain != "" && a.domain == b.domain))
  }

  /** Support that corroborates: strong, or not looked into. */
  predicate Firm(e: Item) {
    e.support in {Entails, Strongly, NoVerdict}
  }

  lemma PairIndependents(a: Item, b: Item)
    ensures Independents([a, b]) == if FromOnePlace(a, b) then 0 else 2
  {
    var pair := [a, b];
    AloneByIndex(pair, 0);
    AloneByIndex(pair, 1);
    hide Alone;
    assert pair[..1] == [a] && [a][..0] == [];
    var alone := AloneIn(multiset(pair));
    assert Count(pair, alone) == Count([a], alone) + (if alone(b) then 1 else 0);
  }

  /** The pieces that corroborate: both, if they support the claim as firmly, or else the firm one. */
  lemma PairPool(a: Item, b: Item)
    ensures Pool([a, b]) == if Firm(a) == Firm(b) then [a, b] else if Firm(a) then [a] else [b]
  {
    var pair := [a, b];
    assert pair[..1] == [a] && [a][..0] == [];
    assert Keep([a], Strong) == if Strong(a) then [a] else [];
    assert Keep(pair, Strong) == if Strong(b) then Keep([a], Strong) + [b] else Keep([a], Strong);
  }

  lemma PairMeasured(a: Item, b: Item)
    requires !a.rejected && !b.rejected && !a.contradicted && !b.contradicted
    ensures var pair := [a, b];
      && Keep(pair, Accepted) == pair && Count(pair, IsContradicted) == 0
      && TotalConfidence(pair) == a.confidence + b.confidence
      && BestWeight(pair) == Max(Positive(Weight(a)), Weight(b))
      && LatestYear(pair) == Later(a.year, b.year)
  {
    var pair := [a, b];
    hide Weight;
    OneMeasured(a);
    AllKept(pair, Accepted);
    NoneKept(pair, IsContradicted);
    assert pair[..1] == [a];
  }

  lemma OneIndependent(e: Item)
    ensures Independents([e]) <= 1
  {
    OneKept(e, AloneIn(multiset([e])));
  }

  lemma PairBoost(a: Item, b: Item)
    ensures Boost(Independents(Pool([a, b]))) == if Firm(a) == Firm(b) && !FromOnePlace(a, b) then 0.12 else 0.0
  {
    PairPool(a, b);
    PairIndependents(a, b);
    OneIndependent(a);
    OneIndependent(b);
    hide Pool;
    hide Independents;
    hide Firm;
    hide FromOnePlace;
  }

  /** Two undisputed pieces of this year corroborate each other exactly when both support the claim firmly,
      or neither does, and they do not come from one place. */
  lemma PairScore(a: Item, b: Item, thisYear: int)
    requires !a.rejected && !b.rejected && !a.contradicted && !b.contradicted
    requires a.year == Some(thisYear) == b.year
    ensures Score([a, b], thisYear)
      == Clamp(Trusted(Max(Positive(Weight(a)), Weight(b)), (a.confidence + b.confidence) / 2.0)
               + if Firm(a) == Firm(b) && !FromOnePlace(a, b) then 0.12 else 0.0)
  {
    hide *;
    var pair := [a, b];
    PairMeasured(a, b);
    PairBoost(a, b);
    ThisYearIsRecent(thisYear);
    LaterSame(thisYear);
    ScoreOf(pair, thisYear);
    PairCombined(BestWeight(pair), a.confidence + b.confidence, Independents(Pool(pair)));
  }

  lemma LaterSame(thisYear: int)
    ensures Later(Some(thisYear), Some(thisYear)) == Some(thisYear)
  {
  }

  lemma ScoreOf(items: seq<Item>, thisYear: int)
    requires items != [] && Keep(items, Accepted) == items && Count(items, IsContradicted) == 0
    ensures Score(items, thisYear) ==
      Combined(BestWeight(items), Average(TotalConfidence(items), |items|), Independents(Pool(items)), 0, Recency(LatestYear(items), thisYear))
  {
    hide Combined;
    hide Independents;
    hide Pool;
  }

  lemma PairCombined(best: real, total: real, independents: nat)
    ensures Combined(best, Average(total, 2), independents, 0, 1.0) == Clamp(Trusted(best, total / 2.0) + Boost(independents))
  {
    hide Trusted;
    hide Boost;
    hide Clamp;
  }
}
