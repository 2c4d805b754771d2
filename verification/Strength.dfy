/** Aggregate strength of evidence: the best single piece, raised a little by independent sources and
    lowered by contradiction and age, so that no swarm of poor sources outvotes one strong study.
    Real numbers; the recording of rounded components is not part of this model. */
module Strength {
  import opened Options

  /** The support verdict recorded with a piece of evidence; old rows have none. */
  datatype Support = NoVerdict | Entails | Strongly | Partially | Weakly | Neutral | Contradicts | Unrelated

  datatype Item = Item(
    rejected: bool,
    contradicted: bool,
    tier: int,
    confidence: real,
    support: Support,
    url: string,
    source: string,
    domain: string,
    year: Option<int>)

  function TierWeight(tier: int): real {
    if tier == 1 then 1.0 else if tier == 2 then 0.8 else if tier == 3 then 0.55 else if tier == 4 then 0.35 else 0.2
  }

  function Factor(support: Support): real {
    match support
    case Entails => 1.0 case Strongly => 0.9 case Partially => 0.6 case Weakly => 0.3
    case Neutral => 0.1 case Contradicts | Unrelated => 0.0 case NoVerdict => 0.7
  }

  function Positive(x: real): real { if x < 0.0 then 0.0 else x }
  function Min(a: real, b: real): real { if a < b then a else b }
  function Max(a: real, b: real): real { if a < b then b else a }

  function Weight(e: Item): real {
    TierWeight(e.tier) * Positive(e.confidence) * Factor(e.support)
  }

  predicate Strong(e: Item) {
    e.support.Entails? || e.support.Strongly? || e.support.NoVerdict?
  }

  /** Two pieces that clearly come from one place; nothing is clear about a missing address. */
  predicate ClearlyDependent(a: Item, b: Item) {
    a.url != "" && b.url != "" && (a.source == b.source || (a.domain != "" && a.domain == b.domain))
  }

  lemma DependenceIsMutual(a: Item, b: Item)
    ensures ClearlyDependent(a, b) <==> ClearlyDependent(b, a)
  {
  }

  // ------------------------------------------------------------------ measures of a list

  predicate Accepted(e: Item) { !e.rejected }

  predicate IsContradicted(e: Item) { e.contradicted }

  function Keep(items: seq<Item>, p: Item -> bool): (r: seq<Item>)
    ensures forall e :: e in r ==> e in items && p(e)
  {
    if items == [] then []
    else
      var n := |items| - 1;
      if p(items[n]) then Keep(items[..n], p) + [items[n]] else Keep(items[..n], p)
  }

  function Count(items: seq<Item>, p: Item -> bool): nat {
    if items == [] then 0 else Count(items[..|items| - 1], p) + (if p(items[|items| - 1]) then 1 else 0)
  }

  function TotalConfidence(items: seq<Item>): real {
    if items == [] then 0.0 else TotalConfidence(items[..|items| - 1]) + items[|items| - 1].confidence
  }

  /** The greatest weight; weights are never negative. */
  function BestWeight(items: seq<Item>): real {
    if items == [] then 0.0 else Max(BestWeight(items[..|items| - 1]), Weight(items[|items| - 1]))
  }

  function Later(a: Option<int>, b: Option<int>): Option<int> {
    if a.None? then b else if b.None? then a else if a.value < b.value then b else a
  }

  function LatestYear(items: seq<Item>): Option<int> {
    if items == [] then None else Later(LatestYear(items[..|items| - 1]), items[|items| - 1].year)
  }

  /** Strong support corroborates; without any, everything accepted does. */
  function Pool(accepted: seq<Item>): seq<Item> {
    var strong := Keep(accepted, Strong);
    if strong == [] then accepted else strong
  }

  /** No other piece of the pool clearly comes from the same place. */
  predicate Alone(pool: multiset<Item>, e: Item) {
    forall other :: other in pool - multiset{e} ==> !ClearlyDependent(e, other)
  }

  function AloneIn(pool: multiset<Item>): Item -> bool {
    e => Alone(pool, e)
  }

  function Independents(pool: seq<Item>): nat {
    Count(pool, AloneIn(multiset(pool)))
  }

  function Recency(latest: Option<int>, thisYear: int): real {
    if latest.None? then 0.6
    else
      var age := if thisYear < latest.value then 0 else thisYear - latest.value;
      Positive(1.0 - age as real / 12.0)
  }

  function Boost(independents: nat): real {
    Min(0.35, 0.12 * Positive(independents as real - 1.0))
  }

  function Clamp(x: real): real {
    Min(1.0, Positive(x))
  }

  function Average(total: real, n: nat): real
    requires n > 0
  {
    total / n as real
  }

  lemma Scales(x: real, n: real)
    requires 0.0 < n
    ensures x < 0.0 ==> x * n < 0.0
  {
  }

  lemma AverageBound(total: real, n: nat)
    requires n > 0 && total <= n as real
    ensures Average(total, n) <= 1.0
    ensures Average(total, 1) == total
  {
    var a := Average(total, n);
    assert (1.0 - a) * n as real == n as real - total;
    Scales(1.0 - a, n as real);
  }

  /** The best piece, as far as extraction was confident on average. */
  function Trusted(best: real, average: real): real {
    best * (0.7 + 0.3 * average)
  }

  /** What the measures add up to. */
  function Combined(best: real, average: real, independents: nat, contradicted: nat, recency: real): real {
    Clamp(Trusted(best, average) + Boost(independents) - Min(0.5, 0.15 * contradicted as real) - (1.0 - recency) * 0.15)
  }

  function Score(items: seq<Item>, thisYear: int): real {
    var accepted := Keep(items, Accepted);
    if accepted == [] then 0.0
    else
      Combined(BestWeight(accepted), Average(TotalConfidence(accepted), |accepted|), Independents(Pool(accepted)),
               Count(accepted, IsContradicted), Recency(LatestYear(accepted), thisYear))
  }

  /** The score of a list that is accepted as a whole. */
  lemma ScoreOfAccepted(items: seq<Item>, thisYear: int)
    requires items != [] && Keep(items, Accepted) == items && Pool(items) == items
    ensures Score(items, thisYear) ==
      Combined(BestWeight(items), Average(TotalConfidence(items), |items|), Independents(items),
               Count(items, IsContradicted), Recency(LatestYear(items), thisYear))
  {
    hide Combined;
    hide Independents;
  }

  // ------------------------------------------------------------------ the order does not matter

  predicate Permutation(a: seq<Item>, b: seq<Item>) {
    multiset(a) == multiset(b)
  }

  function Without(s: seq<Item>, i: nat): seq<Item>
    requires i < |s|
  {
    s[..i] + s[i + 1..]
  }

  lemma WithoutOne(s: seq<Item>, i: nat)
    requires i < |s|
    ensures multiset(s) == multiset(Without(s, i)) + multiset{s[i]}
  {
    assert s == s[..i] + [s[i]] + s[i + 1..];
  }

  /** The last piece of one list, found in the other. */
  lemma TakenOut(a: seq<Item>, b: seq<Item>) returns (i: nat)
    requires Permutation(a, b) && a != []
    ensures i < |b| && b[i] == a[|a| - 1] && Permutation(a[..|a| - 1], Without(b, i))
  {
    var n := |a| - 1;
    assert a == a[..n] + [a[n]];
    assert a[n] in multiset(b);
    i :| 0 <= i < |b| && b[i] == a[n];
    WithoutOne(b, i);
    assert multiset(a[..n]) + multiset{a[n]} == multiset(Without(b, i)) + multiset{a[n]};
    hide Without;
    assert multiset(a[..n]) == multiset(a[..n]) + multiset{a[n]} - multiset{a[n]};
    assert multiset(Without(b, i)) == multiset(Without(b, i)) + multiset{a[n]} - multiset{a[n]};
  }

  lemma SameLength(a: seq<Item>, b: seq<Item>)
    requires Permutation(a, b)
    ensures |a| == |b|
  {
    assert |multiset(a)| == |a|;
  }

  /** Taking out a piece before the last leaves the last one last. */
  lemma WithoutEarlier(s: seq<Item>, i: nat)
    requires i < |s| - 1
    ensures var n, r := |s| - 1, Without(s, i);
      |r| == n && r[n - 1] == s[n] && r[..n - 1] == Without(s[..n], i)
  {
  }

  lemma WithoutLast(s: seq<Item>)
    requires s != []
    ensures Without(s, |s| - 1) == s[..|s| - 1]
  {
  }

  lemma {:induction false} CountWithout(s: seq<Item>, i: nat, p: Item -> bool)
    requires i < |s|
    ensures Count(s, p) == Count(Without(s, i), p) + (if p(s[i]) then 1 else 0)
  {
    if i == |s| - 1 {
      WithoutLast(s);
    } else {
      WithoutEarlier(s, i);
      CountWithout(s[..|s| - 1], i, p);
      hide Without;
    }
  }

  lemma {:induction false} TotalWithout(s: seq<Item>, i: nat)
    requires i < |s|
    ensures TotalConfidence(s) == TotalConfidence(Without(s, i)) + s[i].confidence
  {
    if i == |s| - 1 {
      WithoutLast(s);
    } else {
      WithoutEarlier(s, i);
      TotalWithout(s[..|s| - 1], i);
      hide Without;
    }
  }

  lemma {:induction false} BestWithout(s: seq<Item>, i: nat)
    requires i < |s|
    ensures BestWeight(s) == Max(BestWeight(Without(s, i)), Weight(s[i]))
  {
    hide Weight;
    if i == |s| - 1 {
      WithoutLast(s);
    } else {
      WithoutEarlier(s, i);
      BestWithout(s[..|s| - 1], i);
      hide Without;
    }
  }

  lemma {:induction false} LatestWithout(s: seq<Item>, i: nat)
    requires i < |s|
    ensures LatestYear(s) == Later(LatestYear(Without(s, i)), s[i].year)
  {
    if i == |s| - 1 {
      WithoutLast(s);
    } else {
      WithoutEarlier(s, i);
      LatestWithout(s[..|s| - 1], i);
      hide Without;
    }
  }

  lemma {:induction false} KeepCounts(s: seq<Item>, p: Item -> bool, e: Item)
    ensures multiset(Keep(s, p))[e] == if p(e) then multiset(s)[e] else 0
  {
    if s != [] {
      var n := |s| - 1;
      KeepCounts(s[..n], p, e);
      assert s == s[..n] + [s[n]];
    }
  }

  lemma KeepPermutes(a: seq<Item>, b: seq<Item>, p: Item -> bool)
    requires Permutation(a, b)
    ensures Permutation(Keep(a, p), Keep(b, p))
  {
    forall e ensures multiset(Keep(a, p))[e] == multiset(Keep(b, p))[e] {
      KeepCounts(a, p, e);
      KeepCounts(b, p, e);
    }
    hide Keep;
  }

  /** Every measure is the same for a list in another order. */
  lemma {:induction false} MeasuresPermute(a: seq<Item>, b: seq<Item>, p: Item -> bool)
    requires Permutation(a, b)
    ensures Count(a, p) == Count(b, p)
    ensures TotalConfidence(a) == TotalConfidence(b)
    ensures BestWeight(a) == BestWeight(b)
    ensures LatestYear(a) == LatestYear(b)
  {
    SameLength(a, b);
    if a != [] {
      var i := TakenOut(a, b);
      MeasuresPermute(a[..|a| - 1], Without(b, i), p);
      CountWithout(b, i, p);
      TotalWithout(b, i);
      BestWithout(b, i);
      LatestWithout(b, i);
      hide Without;
      hide Weight;
      hide Later;
    }
  }

  lemma PoolPermutes(a: seq<Item>, b: seq<Item>)
    requires Permutation(a, b)
    ensures Permutation(Pool(a), Pool(b))
  {
    KeepPermutes(a, b, Strong);
    SameLength(Keep(a, Strong), Keep(b, Strong));
  }

  lemma IndependentsPermute(a: seq<Item>, b: seq<Item>)
    requires Permutation(a, b)
    ensures Independents(a) == Independents(b)
  {
    MeasuresPermute(a, b, AloneIn(multiset(a)));
  }

  /** The score depends on which pieces of evidence there are, not on their order. */
  lemma ScoreIgnoresOrder(a: seq<Item>, b: seq<Item>, thisYear: int)
    requires Permutation(a, b)
    ensures Score(a, thisYear) == Score(b, thisYear)
  {
    KeepPermutes(a, b, Accepted);
    var x, y := Keep(a, Accepted), Keep(b, Accepted);
    SameLength(x, y);
    MeasuresPermute(x, y, IsContradicted);
    PoolPermutes(x, y);
    IndependentsPermute(Pool(x), Pool(y));
    hide Permutation;
    hide Keep;
    hide Pool;
    hide Independents;
    hide Combined;
    hide BestWeight;
    hide LatestYear;
    hide TotalConfidence;
  }

  // ------------------------------------------------------------------ how far a swarm gets

  lemma ScoreInRange(items: seq<Item>, thisYear: int)
    ensures 0.0 <= Score(items, thisYear) <= 1.0
  {
    hide Keep;
    hide Boost;
  }

  /** Confidence as extraction clamps it, and no more weight than given. */
  predicate Bounded(e: Item, w: real) {
    e.confidence <= 1.0 && Weight(e) <= w
  }

  predicate AllBounded(items: seq<Item>, w: real) {
    forall e :: e in items ==> Bounded(e, w)
  }

  /** Nothing above a tier, and no better support than given. */
  predicate NoBetter(e: Item, tier: int, support: Support) {
    e.confidence <= 1.0 && TierWeight(e.tier) <= TierWeight(tier) && Factor(e.support) <= Factor(support)
  }

  /** The most that a piece of a tier and a support can weigh. */
  function GradeWeight(tier: int, support: Support): real {
    TierWeight(tier) * Factor(support)
  }

  lemma Product(a: real, b: real, a1: real, b1: real)
    requires 0.0 <= a <= a1 && 0.0 <= b <= b1
    ensures 0.0 <= a * b <= a1 * b1
  {
    assert a * b <= a1 * b;
    assert a1 * b <= a1 * b1;
  }

  lemma GradeBounds(e: Item, tier: int, support: Support)
    requires NoBetter(e, tier, support)
    ensures Bounded(e, GradeWeight(tier, support))
  {
    var t, c, f := TierWeight(e.tier), Positive(e.confidence), Factor(e.support);
    Product(t, c, TierWeight(tier), 1.0);
    Product(t * c, f, TierWeight(tier), Factor(support));
  }

  lemma GradeWeightInRange(tier: int, support: Support)
    ensures 0.0 <= GradeWeight(tier, support) <= 1.0
  {
    Product(TierWeight(tier), Factor(support), 1.0, 1.0);
  }

  lemma {:induction false} MeasuresBounded(items: seq<Item>, w: real)
    requires AllBounded(items, w) && 0.0 <= w
    ensures 0.0 <= BestWeight(items) <= w
    ensures TotalConfidence(items) <= |items| as real
  {
    if items != [] {
      var n := |items| - 1;
      MeasuresBounded(items[..n], w);
      assert Bounded(items[n], w);
      hide Weight;
    }
  }

  /** The most that pieces of a given weight can add up to. */
  function Ceiling(w: real): real {
    Clamp(w + 0.35)
  }

  lemma LossNotNegative(a: real, b: real)
    requires 0.0 <= a && 0.0 <= b
    ensures 0.0 <= a * b
  {
  }

  /** Trust never adds to the best piece. */
  lemma TrustedAtMost(best: real, average: real)
    requires 0.0 <= best && average <= 1.0
    ensures Trusted(best, average) <= best
  {
    var loss := 0.3 * (1.0 - average);
    LossNotNegative(best, loss);
    assert 0.7 + 0.3 * average == 1.0 - loss;
    assert best * (1.0 - loss) == best - best * loss;
  }

  lemma CombinedBound(best: real, average: real, independents: nat, contradicted: nat, recency: real, w: real)
    requires 0.0 <= best <= w && average <= 1.0 && recency <= 1.0
    ensures Combined(best, average, independents, contradicted, recency) <= Ceiling(w)
  {
    TrustedAtMost(best, average);
    hide Trusted;
  }

  /** No number of pieces of a given weight, however independent, scores more than the boost's cap above it. */
  lemma SwarmBound(items: seq<Item>, w: real, thisYear: int)
    requires AllBounded(items, w) && 0.0 <= w
    ensures Score(items, thisYear) <= Ceiling(w)
  {
    var accepted := Keep(items, Accepted);
    if accepted != [] {
      assert AllBounded(accepted, w);
      MeasuresBounded(accepted, w);
      AverageBound(TotalConfidence(accepted), |accepted|);
      RecencyInRange(LatestYear(accepted), thisYear);
      hide Average;
      CombinedBound(BestWeight(accepted), Average(TotalConfidence(accepted), |accepted|), Independents(Pool(accepted)),
                    Count(accepted, IsContradicted), Recency(LatestYear(accepted), thisYear), w);
    }
    hide Keep;
    hide Combined;
    hide BestWeight;
    hide TotalConfidence;
  }

  /** Nothing above the lowest tier. */
  predicate Poor(e: Item) {
    NoBetter(e, 5, Entails)
  }

  /** No number of pieces from the lowest tier scores above 0.55. */
  lemma PoorSwarmBound(items: seq<Item>, thisYear: int)
    requires forall e :: e in items ==> Poor(e)
    ensures Score(items, thisYear) <= 0.55
  {
    forall e | e in items ensures Bounded(e, 0.2) {
      GradeBounds(e, 5, Entails);
    }
    SwarmBound(items, 0.2, thisYear);
    hide Score;
  }

  /** A primary study that entails its claim and that nothing contradicts. */
  predicate Primary(e: Item) {
    !e.rejected && !e.contradicted && e.tier == 1 && e.support == Entails && 0.0 <= e.confidence <= 1.0
  }

  lemma OneKept(e: Item, p: Item -> bool)
    ensures Keep([e], p) == if p(e) then [e] else []
    ensures Count([e], p) == if p(e) then 1 else 0
  {
    assert [e][..0] == [];
  }

  lemma OneMeasured(e: Item)
    ensures TotalConfidence([e]) == e.confidence
    ensures BestWeight([e]) == Positive(Weight(e))
    ensures LatestYear([e]) == e.year
  {
    assert [e][..0] == [];
    hide Weight;
  }

  lemma OneCombined(confidence: real, independents: nat, recency: real)
    requires independents <= 1
    ensures Combined(confidence, confidence, independents, 0, recency) == Clamp(Trusted(confidence, confidence) - (1.0 - recency) * 0.15)
  {
    hide Trusted;
  }

  /** What a primary study scores on its own. */
  lemma PrimaryScore(e: Item, thisYear: int)
    requires Primary(e)
    ensures Score([e], thisYear) == Clamp(Trusted(e.confidence, e.confidence) - (1.0 - Recency(e.year, thisYear)) * 0.15)
  {
    var one := [e];
    OneKept(e, Accepted);
    OneKept(e, Strong);
    OneKept(e, IsContradicted);
    OneKept(e, AloneIn(multiset(one)));
    OneMeasured(e);
    AverageBound(e.confidence, 1);
    assert Positive(Weight(e)) == e.confidence;
    hide Keep;
    hide Count;
    hide Weight;
    hide Recency;
    hide Clamp;
    hide Average;
    hide BestWeight;
    hide TotalConfidence;
    hide LatestYear;
    hide Trusted;
    hide Combined;
    assert Pool(one) == one;
    assert Independents(one) <= 1;
    OneCombined(e.confidence, Independents(one), Recency(e.year, thisYear));
  }

  lemma ConfidenceCounts(c: real)
    requires 0.8 <= c <= 1.0
    ensures 0.752 <= Trusted(c, c)
  {
    assert 0.0 <= (c - 0.8) * (c + 0.8);
    assert 0.64 <= c * c;
  }

  /** Strong enough never to be outvoted. */
  lemma ConfidentPrimary(e: Item, thisYear: int)
    requires Primary(e) && 0.8 <= e.confidence
    ensures 0.602 <= Score([e], thisYear)
  {
    PrimaryScore(e, thisYear);
    ConfidenceCounts(e.confidence);
    RecencyInRange(e.year, thisYear);
    hide Score;
    hide Recency;
    hide Trusted;
  }

  lemma RecencyInRange(latest: Option<int>, thisYear: int)
    ensures 0.0 <= Recency(latest, thisYear) <= 1.0
  {
  }

  /** No swarm from the lowest tier, however large, outvotes one confident primary study. */
  lemma SwarmNeverOutvotes(swarm: seq<Item>, e: Item, thisYear: int)
    requires forall x :: x in swarm ==> Poor(x)
    requires Primary(e) && 0.8 <= e.confidence
    ensures Score(swarm, thisYear) < Score([e], thisYear)
  {
    PoorSwarmBound(swarm, thisYear);
    ConfidentPrimary(e, thisYear);
    hide Score;
  }

  // ------------------------------------------------------------------ how tight the bound is

  function Repeated(n: nat): (s: string)
    ensures |s| == n
  {
    if n == 0 then "" else Repeated(n - 1) + "x"
  }

  /** One of many independent pieces of this year. */
  function Study(tier: int, support: Support, confidence: real, k: nat, thisYear: int): Item {
    Item(false, false, tier, confidence, support, Repeated(k), Repeated(k), Repeated(k), Some(thisYear))
  }

  function Studies(tier: int, support: Support, confidence: real, n: nat, thisYear: int): (r: seq<Item>)
    ensures |r| == n && forall k :: 0 <= k < n ==> r[k] == Study(tier, support, confidence, k + 1, thisYear)
  {
    if n == 0 then [] else Studies(tier, support, confidence, n - 1, thisYear) + [Study(tier, support, confidence, n, thisYear)]
  }

  lemma StudyWeight(tier: int, support: Support, confidence: real, k: nat, thisYear: int)
    requires 0.0 <= confidence
    ensures 0.0 <= Weight(Study(tier, support, confidence, k, thisYear)) == GradeWeight(tier, support) * confidence
  {
    GradeWeightInRange(tier, support);
  }

  function Times(n: nat, x: real): real {
    n as real * x
  }

  lemma OneMore(n: nat, x: real)
    ensures Times(n + 1, x) == Times(n, x) + x
    ensures Times(0, x) == 0.0
  {
  }

  lemma {:induction false} StudiesMeasured(tier: int, support: Support, confidence: real, n: nat, thisYear: int)
    requires 0.0 <= confidence
    ensures var r := Studies(tier, support, confidence, n, thisYear);
      && BestWeight(r) == (if n == 0 then 0.0 else GradeWeight(tier, support) * confidence)
      && TotalConfidence(r) == Times(n, confidence)
      && LatestYear(r) == if n == 0 then None else Some(thisYear)
  {
    hide Weight;
    hide GradeWeight;
    hide Times;
    var weight := GradeWeight(tier, support) * confidence;
    if n > 0 {
      var r := Studies(tier, support, confidence, n, thisYear);
      assert r[..n - 1] == Studies(tier, support, confidence, n - 1, thisYear);
      StudyWeight(tier, support, confidence, n, thisYear);
      OneMore(n - 1, confidence);
      StudiesMeasured(tier, support, confidence, n - 1, thisYear);
      assert Weight(r[n - 1]) == weight;
    } else {
      OneMore(0, confidence);
    }
  }

  lemma {:induction false} AllKept(items: seq<Item>, p: Item -> bool)
    requires forall k :: 0 <= k < |items| ==> p(items[k])
    ensures Keep(items, p) == items && Count(items, p) == |items|
  {
    if items != [] {
      var n := |items| - 1;
      AllKept(items[..n], p);
      assert items == items[..n] + [items[n]];
    }
  }

  lemma {:induction false} NoneKept(items: seq<Item>, p: Item -> bool)
    requires forall k :: 0 <= k < |items| ==> !p(items[k])
    ensures Keep(items, p) == [] && Count(items, p) == 0
  {
    if items != [] {
      NoneKept(items[..|items| - 1], p);
    }
  }

  lemma StudiesApart(tier: int, support: Support, confidence: real, j: nat, k: nat, thisYear: int)
    requires j != k
    ensures !ClearlyDependent(Study(tier, support, confidence, j, thisYear), Study(tier, support, confidence, k, thisYear))
  {
    assert |Repeated(j)| != |Repeated(k)|;
  }

  lemma StudiesIndependent(tier: int, support: Support, confidence: real, n: nat, thisYear: int)
    ensures Independents(Studies(tier, support, confidence, n, thisYear)) == n
  {
    var r := Studies(tier, support, confidence, n, thisYear);
    hide Alone;
    hide ClearlyDependent;
    forall k | 0 <= k < n ensures Alone(multiset(r), r[k]) {
      forall j | 0 <= j < n && j != k ensures !ClearlyDependent(r[k], r[j]) {
        StudiesApart(tier, support, confidence, k + 1, j + 1, thisYear);
      }
      AloneByIndex(r, k);
    }
    AllKept(r, AloneIn(multiset(r)));
  }

  /** Studies of one kind are all accepted, and all of them corroborate each other. */
  lemma StudiesAccepted(tier: int, support: Support, confidence: real, n: nat, thisYear: int)
    ensures var r := Studies(tier, support, confidence, n, thisYear);
      Keep(r, Accepted) == r && Pool(r) == r && Count(r, IsContradicted) == 0
  {
    var r := Studies(tier, support, confidence, n, thisYear);
    AllKept(r, Accepted);
    if Strong(Study(tier, support, confidence, 1, thisYear)) {
      AllKept(r, Strong);
    } else {
      NoneKept(r, Strong);
    }
    NoneKept(r, IsContradicted);
  }

  lemma FourCombined(best: real, average: real)
    ensures Combined(best, average, 4, 0, 1.0) == Clamp(Trusted(best, average) + 0.35)
  {
    hide Trusted;
  }

  lemma CertainCounts(best: real)
    ensures Trusted(best, 1.0) == best
  {
  }

  /** Four independent pieces of one kind, certain and new, reach the ceiling of their weight. */
  lemma FourReachCeiling(tier: int, support: Support, thisYear: int)
    ensures Score(Studies(tier, support, 1.0, 4, thisYear), thisYear) == Ceiling(GradeWeight(tier, support))
  {
    hide *;
    var r := Studies(tier, support, 1.0, 4, thisYear);
    StudiesMeasured(tier, support, 1.0, 4, thisYear);
    StudiesIndependent(tier, support, 1.0, 4, thisYear);
    StudiesAccepted(tier, support, 1.0, 4, thisYear);
    ScoreOfAccepted(r, thisYear);
    ThisYearIsRecent(thisYear);
    FourCombined(GradeWeight(tier, support), 1.0);
    CertainCounts(GradeWeight(tier, support));
    FourAverage();
    CeilingMeans(GradeWeight(tier, support));
  }

  lemma CeilingMeans(w: real)
    ensures Ceiling(w) == Clamp(w + 0.35)
  {
  }

  lemma ThisYearIsRecent(thisYear: int)
    ensures Recency(Some(thisYear), thisYear) == 1.0
  {
  }

  lemma FourAverage()
    ensures Average(Times(4, 1.0), 4) == 1.0
  {
  }

  /** How far a swarm of one grade gets: a single piece of evidence is never outscored by pieces of at most
      a given tier and support exactly when it scores the ceiling of what such a piece weighs. */
  lemma GradeOutvotesExactlyWhen(e: Item, tier: int, support: Support, thisYear: int)
    ensures (forall swarm: seq<Item> | (forall x :: x in swarm ==> NoBetter(x, tier, support)) :: Score(swarm, thisYear) <= Score([e], thisYear))
      <==> Ceiling(GradeWeight(tier, support)) <= Score([e], thisYear)
  {
    hide Score;
    hide Ceiling;
    if Ceiling(GradeWeight(tier, support)) <= Score([e], thisYear) {
      forall swarm: seq<Item> | (forall x :: x in swarm ==> NoBetter(x, tier, support)) ensures Score(swarm, thisYear) <= Score([e], thisYear) {
        forall x | x in swarm ensures Bounded(x, GradeWeight(tier, support)) {
          GradeBounds(x, tier, support);
        }
        GradeWeightInRange(tier, support);
        SwarmBound(swarm, GradeWeight(tier, support), thisYear);
      }
    } else {
      FourReachCeiling(tier, support, thisYear);
      var swarm := Studies(tier, support, 1.0, 4, thisYear);
      assert forall x :: x in swarm ==> NoBetter(x, tier, support);
    }
  }

  // ------------------------------------------------------------------ when a primary study is outvoted

  /** What the confidence and the age of a primary study are worth. */
  function Standing(confidence: real, recency: real): real {
    confidence * (0.7 + 0.3 * confidence) - (1.0 - recency) * 0.15
  }

  lemma StandingScore(e: Item, w: real, thisYear: int)
    requires Primary(e) && 0.0 <= w
    ensures Ceiling(w) <= Score([e], thisYear) <==> Min(1.0, w + 0.35) <= Standing(e.confidence, Recency(e.year, thisYear))
  {
    PrimaryScore(e, thisYear);
    var x := Standing(e.confidence, Recency(e.year, thisYear));
    assert Trusted(e.confidence, e.confidence) - (1.0 - Recency(e.year, thisYear)) * 0.15 == x;
    hide Score;
    hide Standing;
    hide Recency;
    hide Trusted;
    assert Score([e], thisYear) == Clamp(x);
  }

  /** The promise that weak or partially supporting swarms never outvote a primary study holds for a tier
      and a support exactly when the study's confidence, less its age, makes up for what such a piece
      weighs and the corroboration boost. */
  lemma PrimaryOutvotedExactlyWhen(e: Item, tier: int, support: Support, thisYear: int)
    requires Primary(e)
    ensures (forall swarm: seq<Item> | (forall x :: x in swarm ==> NoBetter(x, tier, support)) :: Score(swarm, thisYear) <= Score([e], thisYear))
      <==> Min(1.0, GradeWeight(tier, support) + 0.35) <= Standing(e.confidence, Recency(e.year, thisYear))
  {
    GradeOutvotesExactlyWhen(e, tier, support, thisYear);
    GradeWeightInRange(tier, support);
    StandingScore(e, GradeWeight(tier, support), thisYear);
    hide Score;
    hide NoBetter;
    hide Standing;
    hide Ceiling;
  }

  /** One tier above the lowest, a primary study holds its ground exactly from a standing of 0.7 on. */
  lemma FourthTierOutvotes(e: Item, thisYear: int)
    requires Primary(e)
    ensures (forall swarm: seq<Item> | (forall x :: x in swarm ==> NoBetter(x, 4, Entails)) :: Score(swarm, thisYear) <= Score([e], thisYear))
      <==> 0.7 <= Standing(e.confidence, Recency(e.year, thisYear))
  {
    PrimaryOutvotedExactlyWhen(e, 4, Entails, thisYear);
    assert GradeWeight(4, Entails) == 0.35;
    hide Score;
    hide NoBetter;
    hide Standing;
  }

  /** Partial support outvotes any primary study of confidence 0.96 or less, however recent: four
      independent partially supporting pieces of the first tier score 0.95. */
  lemma PartialSupportOutvotes(e: Item, thisYear: int)
    requires Primary(e) && e.confidence <= 0.96
    ensures Score(Studies(1, Partially, 1.0, 4, thisYear), thisYear) == 0.95
    ensures Score([e], thisYear) < Score(Studies(1, Partially, 1.0, 4, thisYear), thisYear)
  {
    FourReachCeiling(1, Partially, thisYear);
    assert GradeWeight(1, Partially) == 0.6;
    RecencyInRange(e.year, thisYear);
    Product(e.confidence, 0.7 + 0.3 * e.confidence, 0.96, 0.988);
    assert Standing(e.confidence, Recency(e.year, thisYear)) < 0.95;
    StandingScore(e, 0.6, thisYear);
    hide Score;
    hide Standing;
    hide Recency;
    hide Studies;
  }

  // ------------------------------------------------------------------ any weight at all

  /** Four independent studies of weight w and n certain pieces without weight. */
  function Diluted(w: real, n: nat, thisYear: int): (r: seq<Item>)
    ensures |r| == 4 + n
  {
    if n == 0 then Studies(1, Entails, w, 4, thisYear) else Diluted(w, n - 1, thisYear) + [Study(5, Unrelated, 1.0, n, thisYear)]
  }

  lemma DilutedEnd(w: real, n: nat, thisYear: int)
    requires n > 0
    ensures var r := Diluted(w, n, thisYear);
      r[..3 + n] == Diluted(w, n - 1, thisYear) && r[3 + n] == Study(5, Unrelated, 1.0, n, thisYear)
  {
  }

  lemma KeptWith(items: seq<Item>, e: Item, p: Item -> bool)
    ensures Keep(items + [e], p) == if p(e) then Keep(items, p) + [e] else Keep(items, p)
    ensures Count(items + [e], p) == Count(items, p) + (if p(e) then 1 else 0)
  {
    assert (items + [e])[..|items|] == items;
  }

  lemma {:induction false} DilutedKept(w: real, n: nat, thisYear: int)
    ensures var r := Diluted(w, n, thisYear);
      && Keep(r, Accepted) == r && Keep(r, Strong) == Studies(1, Entails, w, 4, thisYear) && Count(r, IsContradicted) == 0
  {
    hide Keep;
    hide Count;
    var r := Diluted(w, n, thisYear);
    if n == 0 {
      AllKept(r, Accepted);
      AllKept(r, Strong);
      NoneKept(r, IsContradicted);
    } else {
      var before, e := Diluted(w, n - 1, thisYear), Study(5, Unrelated, 1.0, n, thisYear);
      DilutedKept(w, n - 1, thisYear);
      KeptWith(before, e, Accepted);
      KeptWith(before, e, Strong);
      KeptWith(before, e, IsContradicted);
      hide Studies;
    }
  }

  lemma FourStudies(w: real)
    requires 0.0 <= w <= 1.0
    ensures GradeWeight(1, Entails) * w == w
    ensures GradeWeight(5, Unrelated) * 1.0 == 0.0
    ensures Times(4, w) == 4.0 * w
  {
  }

  lemma {:induction false} DilutedMeasured(w: real, n: nat, thisYear: int)
    requires 0.0 <= w <= 1.0
    ensures var r := Diluted(w, n, thisYear);
      BestWeight(r) == w && TotalConfidence(r) == 4.0 * w + n as real && LatestYear(r) == Some(thisYear)
  {
    var r := Diluted(w, n, thisYear);
    FourStudies(w);
    hide Weight;
    hide GradeWeight;
    hide Times;
    if n == 0 {
      StudiesMeasured(1, Entails, w, 4, thisYear);
    } else {
      DilutedMeasured(w, n - 1, thisYear);
      DilutedEnd(w, n, thisYear);
      StudyWeight(5, Unrelated, 1.0, n, thisYear);
      hide Diluted;
      assert Weight(r[3 + n]) == 0.0;
    }
  }

  lemma {:induction false} DilutedBounded(w: real, n: nat, thisYear: int)
    requires 0.0 <= w <= 1.0
    ensures AllBounded(Diluted(w, n, thisYear), w)
  {
    var r := Diluted(w, n, thisYear);
    FourStudies(w);
    hide Weight;
    hide GradeWeight;
    if n == 0 {
      forall k | 0 <= k < 4 ensures Bounded(r[k], w) {
        StudyWeight(1, Entails, w, k + 1, thisYear);
      }
    } else {
      DilutedBounded(w, n - 1, thisYear);
      DilutedEnd(w, n, thisYear);
      StudyWeight(5, Unrelated, 1.0, n, thisYear);
      assert r == r[..3 + n] + [r[3 + n]];
    }
  }

  function Dilution(w: real, n: nat): real {
    Average(4.0 * w + n as real, 4 + n)
  }

  lemma DilutedScore(w: real, n: nat, thisYear: int)
    requires 0.0 <= w <= 1.0
    ensures Score(Diluted(w, n, thisYear), thisYear) == Clamp(Trusted(w, Dilution(w, n)) + 0.35)
  {
    hide *;
    var r := Diluted(w, n, thisYear);
    DilutedMeasured(w, n, thisYear);
    DilutedKept(w, n, thisYear);
    StudiesIndependent(1, Entails, w, 4, thisYear);
    ThisYearIsRecent(thisYear);
    FourCombined(w, Dilution(w, n));
    DilutionMeans(w, n);
    StudiesPool(r, w, thisYear);
    ScoreMeans(r, thisYear);
  }

  lemma DilutionMeans(w: real, n: nat)
    ensures Dilution(w, n) == Average(4.0 * w + n as real, 4 + n)
  {
  }

  lemma StudiesPool(r: seq<Item>, w: real, thisYear: int)
    requires Keep(r, Strong) == Studies(1, Entails, w, 4, thisYear)
    ensures Pool(r) == Studies(1, Entails, w, 4, thisYear)
  {
  }

  lemma ScoreMeans(items: seq<Item>, thisYear: int)
    requires items != [] && Keep(items, Accepted) == items
    ensures Score(items, thisYear) ==
      Combined(BestWeight(items), Average(TotalConfidence(items), |items|), Independents(Pool(items)),
               Count(items, IsContradicted), Recency(LatestYear(items), thisYear))
  {
    hide Combined;
    hide Independents;
    hide Pool;
  }

  /** Multiplication by a positive number, whose laws are stated one by one. */
  function Scaled(x: real, m: real): real {
    x * m
  }

  lemma ScaledGrows(x: real, y: real, m: real)
    requires x <= y && 0.0 <= m
    ensures Scaled(x, m) <= Scaled(y, m)
  {
  }

  lemma DilutionLeaves(w: real, n: nat)
    requires 0.0 <= w <= 1.0
    ensures Dilution(w, n) <= 1.0
    ensures Scaled(1.0 - Dilution(w, n), (4 + n) as real) <= 4.0
  {
    AverageBound(4.0 * w + n as real, 4 + n);
    var m, a := (4 + n) as real, Dilution(w, n);
    assert a * m == 4.0 * w + n as real;
  }

  lemma LessThanShare(x: real, m: real, d: real)
    requires 0.0 < m && Scaled(x, m) <= 4.0 < Scaled(d, m)
    ensures x < d
  {
    hide Scaled;
    if d <= x {
      ScaledGrows(d, x, m);
    }
  }

  lemma TrustedLeast(w: real, a: real, d: real)
    requires 0.0 <= w <= 1.0 && a <= 1.0 && 1.0 - a < d
    ensures w - d < Trusted(w, a)
  {
    var loss := 0.3 * (1.0 - a);
    assert w * loss <= loss;
    assert Trusted(w, a) == w - w * loss;
  }

  lemma Share(d: real)
    requires 0.0 < d
    ensures Scaled(4.0 / d, d) == 4.0
  {
  }

  lemma ScaledBack(d: real, m: real)
    requires 0.0 < d
    ensures Scaled(m, d) < Scaled(d, 4.0 + m)
  {
    assert d * (4.0 + m) == 4.0 * d + m * d;
  }

  lemma Enough(d: real) returns (n: nat)
    requires 0.0 < d
    ensures 4.0 < Scaled(d, (4 + n) as real)
  {
    var q := 4.0 / d;
    Share(d);
    hide Scaled;
    n := if q < 0.0 then 0 else q.Floor + 1;
    assert (4 + n) as real == 4.0 + n as real;
    ScaledGrows(q, n as real, d);
    ScaledBack(d, n as real);
  }

  /** Dilution costs less than any given amount, once there are enough certain pieces. */
  lemma DilutionCosts(w: real, d: real) returns (n: nat)
    requires 0.0 <= w <= 1.0 && 0.0 < d
    ensures w - d < Trusted(w, Dilution(w, n))
  {
    hide *;
    n := Enough(d);
    DilutionLeaves(w, n);
    var a := Dilution(w, n);
    LessThanShare(1.0 - a, (4 + n) as real, d);
    TrustedLeast(w, a, d);
  }

  lemma AboveClamps(x: real, y: real)
    requires y < x && y < 1.0 && 0.0 <= y
    ensures y < Clamp(x)
  {
  }

  /** For any weight at all: a single piece of evidence is never outscored by pieces of at most that
      weight exactly when it scores the weight's ceiling. */
  lemma NeverOutvotedExactlyWhen(e: Item, w: real, thisYear: int)
    requires 0.0 <= w <= 1.0
    ensures (forall swarm: seq<Item> | AllBounded(swarm, w) :: Score(swarm, thisYear) <= Score([e], thisYear))
      <==> Ceiling(w) <= Score([e], thisYear)
  {
    ScoreInRange([e], thisYear);
    hide Score;
    hide AllBounded;
    if Ceiling(w) <= Score([e], thisYear) {
      forall swarm: seq<Item> | AllBounded(swarm, w) ensures Score(swarm, thisYear) <= Score([e], thisYear) {
        SwarmBound(swarm, w, thisYear);
      }
    } else {
      var score := Score([e], thisYear);
      var n := DilutionCosts(w, Min(1.0, w + 0.35) - score);
      DilutedBounded(w, n, thisYear);
      DilutedScore(w, n, thisYear);
      hide Trusted;
      hide Dilution;
      AboveClamps(Trusted(w, Dilution(w, n)) + 0.35, score);
      hide Clamp;
      hide Keep;
      hide Diluted;
      assert score < Score(Diluted(w, n, thisYear), thisYear);
    }
  }

  // ------------------------------------------------------------------ the aggregation in code

  /** Counts the pieces that depend on no other, pair by pair. */
  method CountIndependents(pool: seq<Item>) returns (n: nat)
    ensures n == Independents(pool)
  {
    ghost var alone := AloneIn(multiset(pool));
    hide ClearlyDependent;
    n := 0;
    for i := 0 to |pool|
      invariant n == Count(pool[..i], alone)
    {
      var dependent := false;
      var j := 0;
      while j < |pool| && !dependent
        invariant j <= |pool|
        invariant dependent <==> exists k :: 0 <= k < j && k != i && ClearlyDependent(pool[i], pool[k])
      {
        if j != i && ClearlyDependent(pool[i], pool[j]) {
          dependent := true;
        }
        j := j + 1;
      }
      AloneByIndex(pool, i);
      assert pool[..i + 1][..i] == pool[..i];
      if !dependent {
        n := n + 1;
      }
    }
    assert pool[..|pool|] == pool;
  }

  /** The others of a pool are those behind the other places. */
  lemma OthersByIndex(pool: seq<Item>, i: nat)
    requires i < |pool|
    ensures multiset(pool) - multiset{pool[i]} == multiset(Without(pool, i))
    ensures forall k :: 0 <= k < |pool| && k != i ==> pool[k] in Without(pool, i)
    ensures forall other :: other in Without(pool, i) ==> exists k :: 0 <= k < |pool| && k != i && pool[k] == other
  {
    WithoutOne(pool, i);
    var rest := Without(pool, i);
    forall k | 0 <= k < |pool| && k != i ensures pool[k] in rest {
      assert pool[k] == rest[if k < i then k else k - 1];
    }
    forall other | other in rest ensures exists k :: 0 <= k < |pool| && k != i && pool[k] == other {
      var k :| 0 <= k < |rest| && rest[k] == other;
      assert other == pool[if k < i then k else k + 1];
    }
  }

  lemma AloneByIndex(pool: seq<Item>, i: nat)
    requires i < |pool|
    ensures Alone(multiset(pool), pool[i]) <==> forall k :: 0 <= k < |pool| && k != i ==> !ClearlyDependent(pool[i], pool[k])
  {
    OthersByIndex(pool, i);
    var rest := Without(pool, i);
    hide Without;
    hide ClearlyDependent;
    assert forall other :: other in multiset(rest) <==> other in rest;
  }

  method AggregateClaimStrength(items: seq<Item>, thisYear: int) returns (score: real, independents: nat)
    ensures score == Score(items, thisYear)
    ensures independents == if Keep(items, Accepted) == [] then 0 else Independents(Pool(Keep(items, Accepted)))
  {
    hide BestWeight;
    hide TotalConfidence;
    hide LatestYear;
    hide Combined;
    hide Recency;
    var accepted := Keep(items, Accepted);
    if accepted == [] {
      return 0.0, 0;
    }
    var pool := Keep(accepted, Strong);
    if pool == [] {
      pool := accepted;
    }
    independents := CountIndependents(pool);
    var contradicted := Count(accepted, IsContradicted);
    score := Combined(BestWeight(accepted), Average(TotalConfidence(accepted), |accepted|), independents,
                      contradicted, Recency(LatestYear(accepted), thisYear));
  }

  // ------------------------------------------------------------------ hypotheses

  /** How far evidence supports a hypothesis: all of it counts, whatever its status. */
  function SupportOf(sup: seq<Item>): real {
    if sup == [] then 0.0 else Min(1.0, BestWeight(sup) + Boost(Independents(sup)))
  }

  function OppositionOf(con: seq<Item>): real {
    Min(1.0, BestWeight(con) * 1.5)
  }

  function ConfidenceIn(sup: seq<Item>, con: seq<Item>, defects: nat): real {
    var c := Clamp(SupportOf(sup) - 0.5 * OppositionOf(con) - 0.1 * defects as real);
    if sup == [] then Min(c, 0.25) else c
  }

  /** Support of a given weight never gives a hypothesis more than the ceiling of that weight. */
  lemma HypothesisBound(sup: seq<Item>, con: seq<Item>, defects: nat, w: real)
    requires AllBounded(sup, w) && 0.0 <= w
    ensures 0.0 <= ConfidenceIn(sup, con, defects) <= Ceiling(w)
  {
    MeasuresBounded(sup, w);
    WeightsNotNegative(con);
    hide BestWeight;
    hide Independents;
    hide AllBounded;
  }

  lemma {:induction false} WeightsNotNegative(items: seq<Item>)
    ensures 0.0 <= BestWeight(items)
  {
    if items != [] {
      WeightsNotNegative(items[..|items| - 1]);
    }
    hide Weight;
  }

  lemma HypothesisIgnoresOrder(sup: seq<Item>, con: seq<Item>, sup1: seq<Item>, con1: seq<Item>, defects: nat)
    requires Permutation(sup, sup1) && Permutation(con, con1)
    ensures ConfidenceIn(sup, con, defects) == ConfidenceIn(sup1, con1, defects)
  {
    SameLength(sup, sup1);
    MeasuresPermute(sup, sup1, Accepted);
    MeasuresPermute(con, con1, Accepted);
    IndependentsPermute(sup, sup1);
    hide BestWeight;
    hide Independents;
    hide Permutation;
  }

  class Hypothesis {
    var support: real
    var opposition: real
    var confidence: real

    constructor ()
      ensures support == 0.0 && opposition == 0.0 && confidence == 0.5
    {
      support, opposition, confidence := 0.0, 0.0, 0.5;
    }

    /** Scores the hypothesis from the evidence for and against it and the critic's findings. */
    method ScoreFrom(sup: seq<Item>, con: seq<Item>, defects: nat)
      modifies this
      ensures support == SupportOf(sup) && opposition == OppositionOf(con)
      ensures confidence == ConfidenceIn(sup, con, defects)
    {
      hide BestWeight;
      if sup != [] {
        var independents := CountIndependents(sup);
        hide Independents;
        support := Min(1.0, BestWeight(sup) + Boost(independents));
      } else {
        support := 0.0;
      }
      opposition := Min(1.0, BestWeight(con) * 1.5);
      confidence := Clamp(support - 0.5 * opposition - 0.1 * defects as real);
      if sup == [] {
        confidence := Min(confidence, 0.25);
      }
    }
  }
}
