/** What failover tells the breakers of a chain: each provider that was tried reports one outcome to its
    own breaker, and providers behind the one that delivered report nothing. */
module Failovers {
  import opened Options
  import opened CircuitBreakers

  /** What trying a provider tells its breaker: that it was looked at, and how the call went, if it was
      let through; being rate limited is neither a success nor a failure. */
  function Reports<T>(l: Limits, b: Breaker, w: Trial<T>, i: nat): seq<Call> {
    [Look(w.looked(i))]
    + if !Allows(l, b, w.looked(i)) then []
      else match w.answer(i) case Value(_) => [Success] case Error => [Failure(w.finished(i))] case Limited => []
  }

  function Told(l: Limits, b: Breaker, calls: seq<Call>): Breaker {
    if calls == [] then b else Apply(l, Told(l, b, calls[..|calls| - 1]), calls[|calls| - 1])
  }

  predicate Distinct(chain: seq<string>) {
    forall i, j :: 0 <= i < j < |chain| ==> chain[i] != chain[j]
  }

  /** A breaker that has been through some calls goes on from there. */
  lemma {:induction false} ToldOn(l: Limits, before: seq<Call>, calls: seq<Call>)
    ensures Told(l, CircuitBreakers.Run(l, before), calls) == CircuitBreakers.Run(l, before + calls)
  {
    if calls == [] {
      assert before + calls == before;
    } else {
      var n := |calls| - 1;
      ToldOn(l, before, calls[..n]);
      assert (before + calls)[..|before| + n] == before + calls[..n];
    }
  }

  lemma OneTold<T>(l: Limits, breakers: Breakers, name: string, w: Trial<T>, i: nat)
    ensures BreakerFor(TryOne(l, breakers, name, w, i).breakers, name)
      == Told(l, BreakerFor(breakers, name), Reports(l, BreakerFor(breakers, name), w, i))
    ensures forall other :: other != name ==> BreakerFor(TryOne(l, breakers, name, w, i).breakers, other) == BreakerFor(breakers, other)
  {
    var b, look := BreakerFor(breakers, name), Look(w.looked(i));
    assert [look][..0] == [];
    assert Told(l, b, [look]) == Looked(l, b, w.looked(i));
    forall call: Call ensures Told(l, b, [look] + [call]) == Apply(l, Looked(l, b, w.looked(i)), call) {
      assert ([look] + [call])[..1] == [look];
    }
    assert [look] + [] == [look];
  }

  /** What the breaker of a provider is told when it comes up. */
  function AfterTrial<T>(l: Limits, breakers: Breakers, chain: seq<string>, w: Trial<T>, k: nat): Breaker
    requires k < |chain|
  {
    var b := BreakerFor(breakers, chain[k]);
    Told(l, b, Reports(l, b, w, k))
  }

  lemma {:induction false} TriedSoFar<T>(l: Limits, breakers: Breakers, chain: seq<string>, w: Trial<T>, i: nat)
    requires Distinct(chain) && i <= |chain|
    ensures forall k :: 0 <= k < i ==> BreakerFor(BreakersAt(l, breakers, chain, w, i), chain[k]) == AfterTrial(l, breakers, chain, w, k)
    ensures forall k :: i <= k < |chain| ==> BreakerFor(BreakersAt(l, breakers, chain, w, i), chain[k]) == BreakerFor(breakers, chain[k])
  {
    if i > 0 {
      TriedSoFar(l, breakers, chain, w, i - 1);
      OneTold(l, BreakersAt(l, breakers, chain, w, i - 1), chain[i - 1], w, i - 1);
      hide TryOne;
      hide Reports;
      hide Told;
    }
  }

  /** The providers up to the first that delivers, or all of them if none does, report their outcome once,
      and the others nothing. */
  lemma EachReportsOnce<T>(l: Limits, breakers: Breakers, chain: seq<string>, w: Trial<T>, i: nat)
    requires Distinct(chain) && i <= |chain| && (i < |chain| ==> Delivers(l, breakers, chain, w, i))
    requires forall k :: 0 <= k < i ==> !Delivers(l, breakers, chain, w, k)
    ensures var r := Along(l, breakers, chain, w, 0);
      forall k :: 0 <= k < |chain| ==>
        BreakerFor(r.breakers, chain[k]) == if k <= i then AfterTrial(l, breakers, chain, w, k) else BreakerFor(breakers, chain[k])
  {
    hide Reports;
    hide Told;
    AlongFrom(l, breakers, chain, w, i);
    TriedSoFar(l, breakers, chain, w, i);
    if i < |chain| {
      TriedSoFar(l, breakers, chain, w, i + 1);
      assert Along(l, BreakersAt(l, breakers, chain, w, i), chain, w, i).breakers == BreakersAt(l, breakers, chain, w, i + 1);
    }
    hide AfterTrial;
    hide TryOne;
    hide BreakersAt;
  }
}
