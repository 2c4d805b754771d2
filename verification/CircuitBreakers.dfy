/** The circuit breaker, which turns half open lazily when it is looked at, as a function of the
    failures since the last success; and failover along a chain of providers guarded by breakers. */
module CircuitBreakers {
  import opened Options

  datatype Mode = Closed | Open | HalfOpen

  datatype Limits = Limits(threshold: int, cooldown: real)

  datatype Breaker = Breaker(mode: Mode, failures: nat, openedAt: real)

  const NEW_BREAKER: Breaker := Breaker(Closed, 0, 0.0)

  /** Looking at the mode. */
  function Looked(l: Limits, b: Breaker, now: real): Breaker {
    if b.mode == Open && l.cooldown <= now - b.openedAt then b.(mode := HalfOpen) else b
  }

  predicate Allows(l: Limits, b: Breaker, now: real) {
    Looked(l, b, now).mode != Open
  }

  function Succeeded(b: Breaker): Breaker {
    b.(failures := 0, mode := Closed)
  }

  function Failed(l: Limits, b: Breaker, now: real): Breaker {
    if b.mode == HalfOpen then b.(mode := Open, openedAt := now)
    else
      var b1 := b.(failures := b.failures + 1);
      if l.threshold <= b1.failures then b1.(mode := Open, openedAt := now) else b1
  }

  datatype Call = Look(at: real) | Success | Failure(at: real)

  function Apply(l: Limits, b: Breaker, call: Call): Breaker {
    match call
    case Look(at) => Looked(l, b, at)
    case Success => Succeeded(b)
    case Failure(at) => Failed(l, b, at)
  }

  function Run(l: Limits, calls: seq<Call>): Breaker {
    if calls == [] then NEW_BREAKER else Apply(l, Run(l, calls[..|calls| - 1]), calls[|calls| - 1])
  }

  // ------------------------------------------------------------------ what the history says

  /** The failures since the last success. */
  function Streak(calls: seq<Call>): seq<real> {
    if calls == [] then []
    else
      match calls[|calls| - 1]
      case Look(_) => Streak(calls[..|calls| - 1])
      case Success => []
      case Failure(at) => Streak(calls[..|calls| - 1]) + [at]
  }

  /** Enough failures in a row to trip, and the last of them too recent. */
  predicate Tripped(l: Limits, streak: seq<real>, now: real) {
    streak != [] && l.threshold <= |streak| && now - streak[|streak| - 1] < l.cooldown
  }

  /** The clock readings of the calls never decrease, and stay behind the given time. */
  predicate Clocked(calls: seq<Call>, now: real) {
    calls == [] ||
    match calls[|calls| - 1]
    case Success => Clocked(calls[..|calls| - 1], now)
    case Look(at) => at <= now && Clocked(calls[..|calls| - 1], at)
    case Failure(at) => at <= now && Clocked(calls[..|calls| - 1], at)
  }

  /** What the breaker's fields say about its history. */
  predicate Reflects(l: Limits, b: Breaker, streak: seq<real>, now: real) {
    if streak == [] || |streak| < l.threshold then b.mode == Closed && b.failures == |streak|
    else
      && b.mode != Closed && l.threshold <= b.failures
      && b.openedAt == streak[|streak| - 1] <= now
      && (b.mode == HalfOpen ==> l.cooldown <= now - b.openedAt)
  }

  lemma {:induction false} ClockedLater(calls: seq<Call>, t: real, now: real)
    requires Clocked(calls, t) && t <= now
    ensures Clocked(calls, now)
  {
    if calls != [] && calls[|calls| - 1].Success? {
      ClockedLater(calls[..|calls| - 1], t, now);
    }
  }

  lemma {:induction false} RunReflects(l: Limits, calls: seq<Call>, now: real)
    requires Clocked(calls, now)
    ensures Reflects(l, Run(l, calls), Streak(calls), now)
  {
    if calls != [] {
      var before := calls[..|calls| - 1];
      match calls[|calls| - 1]
      case Success => RunReflects(l, before, now);
      case Look(at) => RunReflects(l, before, at);
      case Failure(at) => RunReflects(l, before, at);
    }
  }

  /** The breaker lets a call through exactly when the failures since the last success do not trip
      it, or the cooldown since the last of them is over. */
  lemma AllowsExactlyWhen(l: Limits, calls: seq<Call>, now: real)
    requires Clocked(calls, now)
    ensures Allows(l, Run(l, calls), now) <==> !Tripped(l, Streak(calls), now)
  {
    RunReflects(l, calls, now);
  }

  function Looks(times: seq<real>): (calls: seq<Call>)
    ensures |calls| == |times|
  {
    if times == [] then [] else Looks(times[..|times| - 1]) + [Look(times[|times| - 1])]
  }

  predicate Nondecreasing(times: seq<real>) {
    forall i, j :: 0 <= i < j < |times| ==> times[i] <= times[j]
  }

  lemma {:induction false} LooksKeepStreak(calls: seq<Call>, times: seq<real>)
    ensures Streak(calls + Looks(times)) == Streak(calls)
  {
    if times == [] {
      assert calls + Looks([]) == calls;
    } else {
      var n := |times| - 1;
      LooksKeepStreak(calls, times[..n]);
      assert (calls + Looks(times))[..|calls| + n] == calls + Looks(times[..n]);
    }
  }

  lemma {:induction false} LooksClocked(calls: seq<Call>, times: seq<real>, now: real)
    requires Clocked(calls, if times == [] then now else times[0]) && Nondecreasing(times + [now])
    ensures Clocked(calls + Looks(times), now)
  {
    if times == [] {
      assert calls + Looks([]) == calls;
    } else {
      var n := |times| - 1;
      assert (calls + Looks(times))[..|calls| + n] == calls + Looks(times[..n]);
      assert (times + [now])[n] == times[n] && (times + [now])[n + 1] == now;
      assert forall i :: 0 <= i < n ==> (times[..n] + [times[n]])[i] == (times + [now])[i];
      assert (times[..n] + [times[n]])[n] == (times + [now])[n];
      if n > 0 {
        assert times[..n][0] == times[0];
      }
      LooksClocked(calls, times[..n], times[n]);
    }
  }

  /** Half open is no single probe: once the cooldown is over, every further call is let through
      until one of them reports back. */
  lemma ProbesUnlimited(l: Limits, calls: seq<Call>, times: seq<real>, now: real)
    requires Clocked(calls, if times == [] then now else times[0]) && Nondecreasing(times + [now])
    requires !Tripped(l, Streak(calls), if times == [] then now else times[0])
    ensures Allows(l, Run(l, calls + Looks(times)), now)
  {
    LooksKeepStreak(calls, times);
    LooksClocked(calls, times, now);
    if times != [] {
      assert (times + [now])[0] == times[0] && (times + [now])[|times|] == now;
    }
    AllowsExactlyWhen(l, calls + Looks(times), now);
  }

  // ------------------------------------------------------------------ the breaker object

  class CircuitBreaker {
    const limits: Limits
    var mode: Mode
    var failures: nat
    var openedAt: real
    ghost var calls: seq<Call>

    ghost function Now(): Breaker
      reads this
    {
      Breaker(mode, failures, openedAt)
    }

    ghost predicate Valid()
      reads this
    {
      Now() == Run(limits, calls)
    }

    constructor (limits: Limits)
      ensures Valid() && this.limits == limits && calls == []
    {
      this.limits := limits;
      mode, failures, openedAt, calls := Closed, 0, 0.0, [];
    }

    /** Tells whether a call may go through at the given clock reading. */
    method Allow(now: real) returns (allowed: bool)
      requires Valid() && Clocked(calls, now)
      modifies this
      ensures Valid() && calls == old(calls) + [Look(now)]
      ensures allowed <==> !Tripped(limits, Streak(old(calls)), now)
    {
      AllowsExactlyWhen(limits, calls, now);
      if mode == Open && limits.cooldown <= now - openedAt {
        mode := HalfOpen;
      }
      calls := calls + [Look(now)];
      assert calls[..|calls| - 1] == old(calls);
      return mode != Open;
    }

    method RecordSuccess()
      requires Valid()
      modifies this
      ensures Valid() && calls == old(calls) + [Success]
    {
      failures, mode := 0, Closed;
      calls := calls + [Success];
      assert calls[..|calls| - 1] == old(calls);
    }

    method RecordFailure(now: real)
      requires Valid()
      modifies this
      ensures Valid() && calls == old(calls) + [Failure(now)]
    {
      if mode == HalfOpen {
        mode, openedAt := Open, now;
      } else {
        failures := failures + 1;
        if limits.threshold <= failures {
          mode, openedAt := Open, now;
        }
      }
      calls := calls + [Failure(now)];
      assert calls[..|calls| - 1] == old(calls);
    }
  }

  // ------------------------------------------------------------------ failover

  /** What happens when a provider is tried: the rate limit, and the operation itself. */
  datatype Answer<T> = Limited | Value(value: T) | Error

  /** The world of one failover run: what the i-th provider of the chain answers, and the clock. */
  datatype Trial<T> = Trial(answer: nat -> Answer<T>, looked: nat -> real, finished: nat -> real)

  type Breakers = map<string, Breaker>

  /** Breakers are made on first use. */
  function BreakerFor(breakers: Breakers, name: string): Breaker {
    if name in breakers then breakers[name] else NEW_BREAKER
  }

  /** One provider of the chain: the value, if it delivers one, and the breakers afterwards. */
  datatype Tried<T> = Tried(value: Option<T>, breakers: Breakers)

  function TryOne<T>(l: Limits, breakers: Breakers, name: string, w: Trial<T>, i: nat): Tried<T> {
    var b := Looked(l, BreakerFor(breakers, name), w.looked(i));
    var seen := breakers[name := b];
    if b.mode == Open then Tried(None, seen)
    else
      match w.answer(i)
      case Limited => Tried(None, seen)
      case Value(v) => Tried(Some(v), seen[name := Succeeded(b)])
      case Error => Tried(None, seen[name := Failed(l, b, w.finished(i))])
  }

  /** The chain from the i-th provider on. */
  function Along<T>(l: Limits, breakers: Breakers, chain: seq<string>, w: Trial<T>, i: nat): Tried<T>
    requires i <= |chain|
    decreases |chain| - i
  {
    if i == |chain| then Tried(None, breakers)
    else
      var t := TryOne(l, breakers, chain[i], w, i);
      if t.value.Some? then t else Along(l, t.breakers, chain, w, i + 1)
  }

  /** The breakers as they were when the i-th provider came up, nobody before it having delivered. */
  function BreakersAt<T>(l: Limits, breakers: Breakers, chain: seq<string>, w: Trial<T>, i: nat): Breakers
    requires i <= |chain|
  {
    if i == 0 then breakers else TryOne(l, BreakersAt(l, breakers, chain, w, i - 1), chain[i - 1], w, i - 1).breakers
  }

  predicate Delivers<T>(l: Limits, breakers: Breakers, chain: seq<string>, w: Trial<T>, i: nat)
    requires i < |chain|
  {
    Allows(l, BreakerFor(BreakersAt(l, breakers, chain, w, i), chain[i]), w.looked(i)) && w.answer(i).Value?
  }

  lemma {:induction false} AlongFrom<T>(l: Limits, breakers: Breakers, chain: seq<string>, w: Trial<T>, i: nat)
    requires i <= |chain| && forall k :: 0 <= k < i ==> !Delivers(l, breakers, chain, w, k)
    ensures Along(l, BreakersAt(l, breakers, chain, w, i), chain, w, i) == Along(l, breakers, chain, w, 0)
  {
    if i > 0 {
      AlongFrom(l, breakers, chain, w, i - 1);
      assert !Delivers(l, breakers, chain, w, i - 1);
    }
  }

  /** Failover returns the value of the first provider in the chain whose breaker lets it through,
      that is not rate limited and that succeeds; the breakers of providers behind it in the chain
      are left alone. It fails exactly when there is no such provider. */
  lemma FirstDelivers<T>(l: Limits, breakers: Breakers, chain: seq<string>, w: Trial<T>, i: nat)
    requires i < |chain| && Delivers(l, breakers, chain, w, i)
    requires forall k :: 0 <= k < i ==> !Delivers(l, breakers, chain, w, k)
    ensures var r := Along(l, breakers, chain, w, 0);
      && r.value == Some(w.answer(i).value)
      && BreakerFor(r.breakers, chain[i]) == NEW_BREAKER.(openedAt := BreakerFor(r.breakers, chain[i]).openedAt)
      && forall name :: name !in chain[..i + 1] ==> BreakerFor(r.breakers, name) == BreakerFor(breakers, name)
  {
    AlongFrom(l, breakers, chain, w, i);
    forall name | name !in chain[..i + 1] ensures BreakerFor(BreakersAt(l, breakers, chain, w, i), name) == BreakerFor(breakers, name) {
      Untouched(l, breakers, chain, w, i, name);
    }
    assert chain[i] in chain[..i + 1];
  }

  lemma {:induction false} Untouched<T>(l: Limits, breakers: Breakers, chain: seq<string>, w: Trial<T>, i: nat, name: string)
    requires i <= |chain| && forall k :: 0 <= k < i ==> chain[k] != name
    ensures BreakerFor(BreakersAt(l, breakers, chain, w, i), name) == BreakerFor(breakers, name)
  {
    if i > 0 {
      Untouched(l, breakers, chain, w, i - 1, name);
    }
  }

  lemma FailsExactlyWhen<T>(l: Limits, breakers: Breakers, chain: seq<string>, w: Trial<T>)
    ensures Along(l, breakers, chain, w, 0).value == None
      <==> forall k :: 0 <= k < |chain| ==> !Delivers(l, breakers, chain, w, k)
  {
    if forall k :: 0 <= k < |chain| ==> !Delivers(l, breakers, chain, w, k) {
      AlongFrom(l, breakers, chain, w, |chain|);
    } else {
      var i := FirstOf(l, breakers, chain, w, 0);
      FirstDelivers(l, breakers, chain, w, i);
    }
  }

  lemma FirstOf<T>(l: Limits, breakers: Breakers, chain: seq<string>, w: Trial<T>, from: nat) returns (i: nat)
    requires from <= |chain| && exists k :: from <= k < |chain| && Delivers(l, breakers, chain, w, k)
    requires forall k :: 0 <= k < from ==> !Delivers(l, breakers, chain, w, k)
    ensures i < |chain| && Delivers(l, breakers, chain, w, i)
    ensures forall k :: 0 <= k < i ==> !Delivers(l, breakers, chain, w, k)
    decreases |chain| - from
  {
    if Delivers(l, breakers, chain, w, from) {
      return from;
    }
    i := FirstOf(l, breakers, chain, w, from + 1);
  }

  class FailoverExecutor<T> {
    const limits: Limits
    var breakers: Breakers

    constructor (limits: Limits)
      ensures this.limits == limits && breakers == map[]
    {
      this.limits, breakers := limits, map[];
    }

    /** Tries one provider, unless its breaker is open or it is rate limited. */
    method Try(name: string, w: Trial<T>, i: nat) returns (value: Option<T>)
      modifies this
      ensures Tried(value, breakers) == TryOne(limits, old(breakers), name, w, i)
    {
      if name !in breakers {
        breakers := breakers[name := NEW_BREAKER];
      }
      var b := Looked(limits, breakers[name], w.looked(i));
      breakers := breakers[name := b];
      assert breakers == old(breakers)[name := b];
      if b.mode == Open {
        return None;
      }
      match w.answer(i)
      case Limited =>
        return None;
      case Value(v) =>
        breakers := breakers[name := Succeeded(b)];
        return Some(v);
      case Error =>
        breakers := breakers[name := Failed(limits, b, w.finished(i))];
        return None;
    }

    /** Tries the providers of a chain in order; no value means that all of them failed. */
    method Run(chain: seq<string>, w: Trial<T>) returns (value: Option<T>)
      modifies this
      ensures Tried(value, breakers) == Along(limits, old(breakers), chain, w, 0)
    {
      hide TryOne;
      var i := 0;
      while i < |chain|
        invariant i <= |chain|
        invariant Along(limits, breakers, chain, w, i) == Along(limits, old(breakers), chain, w, 0)
      {
        value := Try(chain[i], w, i);
        if value.Some? {
          return;
        }
        i := i + 1;
      }
      return None;
    }
  }
}
