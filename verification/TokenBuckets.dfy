/** The token bucket: a request is granted exactly when every window that ends with it stays
    within the burst and the sustained rate. Time and tokens are real numbers. */
module TokenBuckets {

  function Min(a: real, b: real): real { if a < b then a else b }

  /** The tokens that flow in while some time passes. */
  function Supply(rate: real, elapsed: real): real { elapsed * rate }

  lemma SupplyAdds(rate: real, a: real, b: real)
    ensures Supply(rate, a) + Supply(rate, b) == Supply(rate, a + b)
  {
  }

  lemma SupplyGrows(rate: real, a: real, b: real)
    requires 0.0 <= rate && a <= b
    ensures Supply(rate, a) <= Supply(rate, b)
  {
    assert 0.0 <= rate * (b - a);
  }

  lemma NoSupply(rate: real)
    ensures Supply(rate, 0.0) == 0.0
  {
  }

  /** A bucket as it was left at a moment. */
  datatype Bucket = Bucket(tokens: real, updated: real)

  function Refilled(rate: real, burst: int, b: Bucket, now: real): Bucket {
    Bucket(Min(burst as real, b.tokens + Supply(rate, now - b.updated)), now)
  }

  /** One attempt to take a token. */
  predicate Grants(rate: real, burst: int, b: Bucket, now: real) {
    1.0 <= Refilled(rate, burst, b, now).tokens
  }

  function Attempted(rate: real, burst: int, b: Bucket, now: real): Bucket {
    var r := Refilled(rate, burst, b, now);
    if 1.0 <= r.tokens then r.(tokens := r.tokens - 1.0) else r
  }

  function Created(burst: int, now: real): Bucket {
    Bucket(burst as real, now)
  }

  // ------------------------------------------------------------------ windows

  /** The grants from the i-th on, with one more at the given time, stay within burst and rate. */
  predicate WindowFits(rate: real, burst: int, grants: seq<real>, i: nat, now: real)
    requires i < |grants|
  {
    (|grants| - i + 1) as real <= burst as real + Supply(rate, now - grants[i])
  }

  /** Every window that ends with a grant at the given time stays within burst and rate. */
  predicate Fits(rate: real, burst: int, grants: seq<real>, now: real) {
    1 <= burst && forall i :: 0 <= i < |grants| ==> WindowFits(rate, burst, grants, i, now)
  }

  /** The tokens left after the given grants: what the tightest window leaves. */
  function Level(rate: real, burst: int, grants: seq<real>, now: real): real {
    if grants == [] then burst as real
    else Min(Level(rate, burst, grants[1..], now), burst as real + Supply(rate, now - grants[0]) - |grants| as real)
  }

  predicate Nondecreasing(times: seq<real>) {
    forall i, j :: 0 <= i < j < |times| ==> times[i] <= times[j]
  }

  lemma {:induction false} LevelRises(rate: real, burst: int, grants: seq<real>, t: real, now: real)
    requires 0.0 <= rate && t <= now
    ensures Level(rate, burst, grants, now) == Min(burst as real, Level(rate, burst, grants, t) + Supply(rate, now - t))
  {
    NoSupply(rate);
    SupplyGrows(rate, 0.0, now - t);
    hide Supply;
    if grants != [] {
      LevelRises(rate, burst, grants[1..], t, now);
      SupplyAdds(rate, t - grants[0], now - t);
      assert t - grants[0] + (now - t) == now - grants[0];
    }
  }

  lemma {:induction false} LevelAfterGrant(rate: real, burst: int, grants: seq<real>, now: real)
    ensures Level(rate, burst, grants + [now], now) == Level(rate, burst, grants, now) - 1.0
  {
    NoSupply(rate);
    hide Supply;
    if grants == [] {
      assert ([] + [now])[1..] == [];
    } else {
      LevelAfterGrant(rate, burst, grants[1..], now);
      assert (grants + [now])[1..] == grants[1..] + [now];
    }
  }

  lemma {:induction false} LevelBounds(rate: real, burst: int, grants: seq<real>, now: real)
    ensures Level(rate, burst, grants, now) <= burst as real
    ensures 1.0 <= Level(rate, burst, grants, now) <==> Fits(rate, burst, grants, now)
  {
    hide Supply;
    if grants != [] {
      var rest := grants[1..];
      LevelBounds(rate, burst, rest, now);
      assert forall i :: 0 <= i < |rest| ==> WindowFits(rate, burst, rest, i, now) == WindowFits(rate, burst, grants, i + 1, now);
      assert forall i :: 0 < i < |grants| ==> WindowFits(rate, burst, grants, i, now) == WindowFits(rate, burst, rest, i - 1, now);
      assert WindowFits(rate, burst, grants, 0, now) <==> 1.0 <= burst as real + Supply(rate, now - grants[0]) - |grants| as real;
    }
  }

  // ------------------------------------------------------------------ runs

  /** A bucket and the times of its grants after a run of attempts. */
  datatype History = History(bucket: Bucket, grants: seq<real>)

  function Run(rate: real, burst: int, start: real, attempts: seq<real>): History {
    if attempts == [] then History(Created(burst, start), [])
    else
      var n := |attempts| - 1;
      var h := Run(rate, burst, start, attempts[..n]);
      History(Attempted(rate, burst, h.bucket, attempts[n]),
              if Grants(rate, burst, h.bucket, attempts[n]) then h.grants + [attempts[n]] else h.grants)
  }

  /** The bucket holds what the windows of its past grants leave. */
  predicate Reflects(rate: real, burst: int, h: History) {
    && h.bucket.tokens == Level(rate, burst, h.grants, h.bucket.updated)
    && Nondecreasing(h.grants)
    && (forall i :: 0 <= i < |h.grants| ==> h.grants[i] <= h.bucket.updated)
  }

  lemma AttemptReflects(rate: real, burst: int, h: History, now: real)
    requires 0.0 <= rate && Reflects(rate, burst, h) && h.bucket.updated <= now
    ensures Grants(rate, burst, h.bucket, now) <==> Fits(rate, burst, h.grants, now)
    ensures Reflects(rate, burst, History(Attempted(rate, burst, h.bucket, now),
      if Grants(rate, burst, h.bucket, now) then h.grants + [now] else h.grants))
  {
    LevelRises(rate, burst, h.grants, h.bucket.updated, now);
    LevelAfterGrant(rate, burst, h.grants, now);
    LevelBounds(rate, burst, h.grants, now);
    hide Level;
    hide Supply;
    hide Fits;
  }

  /** The clock's last reading before an attempt. */
  function Before(start: real, attempts: seq<real>, i: nat): real
    requires i <= |attempts|
  {
    if i == 0 then start else attempts[i - 1]
  }

  /** The clock never runs backwards. */
  predicate Clocked(start: real, attempts: seq<real>) {
    forall i :: 0 <= i < |attempts| ==> Before(start, attempts, i) <= attempts[i]
  }

  lemma ClockedBefore(start: real, attempts: seq<real>)
    requires Clocked(start, attempts) && attempts != []
    ensures var n := |attempts| - 1;
      Clocked(start, attempts[..n]) && Before(start, attempts[..n], n) == Before(start, attempts, n) <= attempts[n]
  {
    var n := |attempts| - 1;
    forall i | 0 <= i < n ensures Before(start, attempts[..n], i) <= attempts[..n][i] {
      assert Before(start, attempts, i) <= attempts[i];
    }
  }

  lemma {:induction false} RunReflects(rate: real, burst: int, start: real, attempts: seq<real>)
    requires 0.0 <= rate && Clocked(start, attempts)
    ensures var h := Run(rate, burst, start, attempts);
      Reflects(rate, burst, h) && h.bucket.updated == Before(start, attempts, |attempts|)
  {
    if attempts != [] {
      var n := |attempts| - 1;
      ClockedBefore(start, attempts);
      RunReflects(rate, burst, start, attempts[..n]);
      AttemptReflects(rate, burst, Run(rate, burst, start, attempts[..n]), attempts[n]);
      hide Reflects;
      hide Supply;
    }
  }

  /** An attempt is granted exactly when every window that ends with it stays within the limits:
      the bucket never grants too much, and never refuses what the limits allow. */
  lemma GrantedExactlyWhenItFits(rate: real, burst: int, start: real, attempts: seq<real>, now: real)
    requires 0.0 <= rate && Clocked(start, attempts) && Before(start, attempts, |attempts|) <= now
    ensures var h := Run(rate, burst, start, attempts);
      Grants(rate, burst, h.bucket, now) <==> Fits(rate, burst, h.grants, now)
  {
    RunReflects(rate, burst, start, attempts);
    AttemptReflects(rate, burst, Run(rate, burst, start, attempts), now);
  }

  /** Tokens never leave the range from zero to the burst. */
  lemma {:induction false} TokensInRange(rate: real, burst: int, start: real, attempts: seq<real>)
    requires 0.0 <= rate && 0 <= burst && Clocked(start, attempts)
    ensures 0.0 <= Run(rate, burst, start, attempts).bucket.tokens <= burst as real
  {
    if attempts != [] {
      var n := |attempts| - 1;
      ClockedBefore(start, attempts);
      TokensInRange(rate, burst, start, attempts[..n]);
      RunReflects(rate, burst, start, attempts[..n]);
      NoSupply(rate);
      SupplyGrows(rate, 0.0, attempts[n] - Run(rate, burst, start, attempts[..n]).bucket.updated);
      hide Supply;
    }
  }

  /** A grant that fits stays within the limits with any grant before it, and by itself. */
  lemma NewestWithin(rate: real, burst: int, grants: seq<real>, i: nat, now: real)
    requires Fits(rate, burst, grants, now) && i <= |grants|
    ensures (|grants| - i + 1) as real <= burst as real + Supply(rate, now - (grants + [now])[i])
  {
    NoSupply(rate);
    hide Supply;
    if i < |grants| {
      assert WindowFits(rate, burst, grants, i, now);
    }
  }

  /** The grants of a run with one more attempt. */
  lemma RunGrants(rate: real, burst: int, start: real, attempts: seq<real>)
    requires 0.0 <= rate && Clocked(start, attempts) && attempts != []
    ensures var n := |attempts| - 1;
      var grants := Run(rate, burst, start, attempts[..n]).grants;
      Run(rate, burst, start, attempts).grants ==
        if Fits(rate, burst, grants, attempts[n]) then grants + [attempts[n]] else grants
  {
    var n := |attempts| - 1;
    ClockedBefore(start, attempts);
    RunReflects(rate, burst, start, attempts[..n]);
    AttemptReflects(rate, burst, Run(rate, burst, start, attempts[..n]), attempts[n]);
    hide Reflects;
    hide Fits;
    hide Grants;
    hide Attempted;
    hide Clocked;
  }

  /** The grants from i to j of a run stay within the limits. */
  lemma {:induction false} GrantsWithin(rate: real, burst: int, start: real, attempts: seq<real>, i: nat, j: nat)
    requires 0.0 <= rate && Clocked(start, attempts)
    requires i <= j < |Run(rate, burst, start, attempts).grants|
    ensures var grants := Run(rate, burst, start, attempts).grants;
      (j - i + 1) as real <= burst as real + Supply(rate, grants[j] - grants[i])
  {
    hide Supply;
    hide Fits;
    hide Clocked;
    var n := |attempts| - 1;
    ClockedBefore(start, attempts);
    RunGrants(rate, burst, start, attempts);
    var grants := Run(rate, burst, start, attempts[..n]).grants;
    hide Run;
    if j < |grants| {
      GrantsWithin(rate, burst, start, attempts[..n], i, j);
    } else {
      NewestWithin(rate, burst, grants, i, attempts[n]);
    }
  }

  function CountIn(grants: seq<real>, from: real, to: real): nat {
    if grants == [] then 0
    else CountIn(grants[..|grants| - 1], from, to) + (if from <= grants[|grants| - 1] <= to then 1 else 0)
  }

  /** The grants within a window are consecutive: the first and the last of them tell how many. */
  lemma {:induction false} CountedGrants(grants: seq<real>, from: real, to: real) returns (i: nat, j: nat)
    requires Nondecreasing(grants) && CountIn(grants, from, to) > 0
    ensures i <= j < |grants| && from <= grants[i] && grants[j] <= to
    ensures CountIn(grants, from, to) <= j - i + 1
  {
    var n := |grants| - 1;
    if from <= grants[n] <= to && CountIn(grants[..n], from, to) == 0 {
      return n, n;
    }
    i, j := CountedGrants(grants[..n], from, to);
    if from <= grants[n] <= to {
      j := n;
    }
  }

  /** The rate limit: over any run with a nondecreasing clock, the grants within any window never
      exceed the burst plus what the rate supplies during the window. */
  lemma WindowBound(rate: real, burst: int, start: real, attempts: seq<real>, from: real, to: real)
    requires 0.0 <= rate && 0 <= burst && Clocked(start, attempts) && from <= to
    ensures CountIn(Run(rate, burst, start, attempts).grants, from, to) as real <= burst as real + Supply(rate, to - from)
  {
    hide Supply;
    hide Run;
    hide Clocked;
    var grants := Run(rate, burst, start, attempts).grants;
    NoSupply(rate);
    SupplyGrows(rate, 0.0, to - from);
    if CountIn(grants, from, to) > 0 {
      RunReflects(rate, burst, start, attempts);
      var i, j := CountedGrants(grants, from, to);
      hide CountIn;
      hide Reflects;
      GrantsWithin(rate, burst, start, attempts, i, j);
      SupplyGrows(rate, grants[j] - grants[i], to - from);
    }
  }

  // ------------------------------------------------------------------ the limiter

  /** The time until the bucket holds a token. */
  function Need(rate: real, tokens: real): real
    requires rate != 0.0
  {
    (1.0 - tokens) / rate
  }

  lemma NeedShrinks(rate: real, tokens: real, elapsed: real)
    requires 0.0 < rate
    ensures Need(rate, tokens + Supply(rate, elapsed)) == Need(rate, tokens) - elapsed
  {
    assert 1.0 - (tokens + elapsed * rate) == ((1.0 - tokens) / rate - elapsed) * rate;
  }

  lemma NeedPositive(rate: real, tokens: real)
    requires 0.0 < rate && tokens < 1.0
    ensures 0.0 < Need(rate, tokens)
  {
  }

  /** After a wait the bucket holds a token, or half a second less is needed. */
  lemma WaitShortens(rate: real, burst: int, b: Bucket, now: real)
    requires 0.0 < rate && 1 <= burst
    requires b.updated + Min(Need(rate, b.tokens), 0.5) <= now
    requires !Grants(rate, burst, b, now)
    ensures var left := Need(rate, Attempted(rate, burst, b, now).tokens); 0.0 < left <= Need(rate, b.tokens) - 0.5
  {
    NeedShrinks(rate, b.tokens, now - b.updated);
    NeedPositive(rate, b.tokens + Supply(rate, now - b.updated));
    hide Supply;
    hide Need;
  }

  /** Below a burst of one nothing is ever granted, and what is missing is never less than the burst leaves. */
  lemma NothingBelowOne(rate: real, burst: int, b: Bucket, now: real)
    requires 0.0 < rate && burst < 1
    ensures !Grants(rate, burst, b, now)
    ensures Need(rate, burst as real) <= Need(rate, Attempted(rate, burst, b, now).tokens)
  {
    var t := Attempted(rate, burst, b, now).tokens;
    assert t <= burst as real;
    NeedFalls(rate, t, burst as real);
    hide Supply;
    hide Need;
  }

  lemma NeedFalls(rate: real, a: real, b: real)
    requires 0.0 < rate && a <= b
    ensures Need(rate, b) <= Need(rate, a)
  {
    var x, y := Need(rate, a), Need(rate, b);
    assert x * rate == 1.0 - a && y * rate == 1.0 - b;
    if x < y {
      assert 0.0 < (y - x) * rate;
    }
  }

  lemma StillWaits(rate: real, burst: int, b: Bucket, now: real, timeout: real)
    requires 0.0 < rate && burst < 1 && b.updated <= now && b.tokens <= burst as real && Need(rate, b.tokens) <= timeout
    ensures var b1 := Attempted(rate, burst, b, now);
      !Grants(rate, burst, b, now) && b1.tokens <= burst as real && Need(rate, b1.tokens) <= timeout
  {
    NothingBelowOne(rate, burst, b, now);
    SupplyGrows(rate, 0.0, now - b.updated);
    NoSupply(rate);
    NeedFalls(rate, b.tokens, Attempted(rate, burst, b, now).tokens);
    hide Supply;
    hide Need;
  }

  /** The bucket after attempts at the given times. */
  function AttemptedAll(rate: real, burst: int, b: Bucket, times: seq<real>): Bucket {
    if times == [] then b
    else Attempted(rate, burst, AttemptedAll(rate, burst, b, times[..|times| - 1]), times[|times| - 1])
  }

  /** The times never run backwards, from the bucket's last update on. */
  predicate Ascending(b: Bucket, times: seq<real>) {
    && (times != [] ==> b.updated <= times[0])
    && forall k :: 0 < k < |times| ==> times[k - 1] <= times[k]
  }

  /** Below a burst of one a caller whose timeout covers what is missing waits for ever: however often and
      whenever it looks again, no look is granted, and what is missing never exceeds the timeout. */
  lemma {:induction false} WaitsForEver(rate: real, burst: int, b: Bucket, times: seq<real>, timeout: real)
    requires 0.0 < rate && burst < 1 && b.tokens <= burst as real && Need(rate, b.tokens) <= timeout
    requires Ascending(b, times)
    ensures forall k :: 0 <= k < |times| ==> !Grants(rate, burst, AttemptedAll(rate, burst, b, times[..k]), times[k])
    ensures var b1 := AttemptedAll(rate, burst, b, times);
      && b1.tokens <= burst as real && Need(rate, b1.tokens) <= timeout
      && b1.updated == if times == [] then b.updated else times[|times| - 1]
  {
    hide Need;
    if times != [] {
      var n := |times| - 1;
      assert forall k :: 0 <= k < n ==> times[..n][k] == times[k];
      assert n > 0 ==> times[n - 1] <= times[n];
      WaitsForEver(rate, burst, b, times[..n], timeout);
      var before := AttemptedAll(rate, burst, b, times[..n]);
      StillWaits(rate, burst, before, times[n], timeout);
      hide Grants;
      forall k | 0 <= k < |times| ensures !Grants(rate, burst, AttemptedAll(rate, burst, b, times[..k]), times[k]) {
        if k < n {
          assert times[..n][..k] == times[..k];
        }
      }
    }
  }

  /** A monotonic clock; sleeping moves it at least as far as asked. */
  class Clock {
    var now: real

    constructor ()
      ensures now == 0.0
    {
      now := 0.0;
    }

    method Read() returns (t: real)
      modifies this
      ensures t == now && old(now) <= now
    {
      var passed: real :| 0.0 <= passed;
      now := now + passed;
      return now;
    }

    method Sleep(seconds: real)
      modifies this
      ensures old(now) + seconds <= now && old(now) <= now
    {
      var passed: real :| 0.0 <= passed;
      now := now + passed + (if seconds < 0.0 then 0.0 else seconds);
    }
  }

  class TokenBucketRateLimiter {
    const rate: real
    const burst: int
    const clock: Clock
    var tokens: real
    var updated: real
    ghost var grants: seq<real>

    ghost predicate Valid()
      reads this, clock
    {
      0.0 < rate && updated <= clock.now && Reflects(rate, burst, History(Bucket(tokens, updated), grants))
    }

    constructor (rate: real, burst: int, clock: Clock)
      requires 0.0 < rate
      ensures Valid() && this.rate == rate && this.burst == burst && this.clock == clock && grants == []
    {
      this.rate, this.burst, this.clock := rate, burst, clock;
      tokens, updated, grants := burst as real, clock.now, [];
    }

    /** One look at the bucket. */
    method Attempt() returns (granted: bool, need: real)
      requires Valid()
      modifies this`tokens, this`updated, this`grants, clock
      ensures Valid() && updated == clock.now && old(clock.now) <= clock.now
      ensures granted <==> Fits(rate, burst, old(grants), clock.now)
      ensures grants == if granted then old(grants) + [clock.now] else old(grants)
      ensures Bucket(tokens, updated) == Attempted(rate, burst, old(Bucket(tokens, updated)), clock.now)
      ensures granted <==> Grants(rate, burst, old(Bucket(tokens, updated)), clock.now)
      ensures !granted ==> 0.0 < need == Need(rate, tokens)
    {
      ghost var h := History(Bucket(tokens, updated), grants);
      var now := clock.Read();
      AttemptReflects(rate, burst, h, now);
      hide Reflects;
      hide Fits;
      hide Supply;
      tokens := Min(burst as real, tokens + Supply(rate, now - updated));
      updated := now;
      if 1.0 <= tokens {
        tokens := tokens - 1.0;
        grants := grants + [now];
        return true, 0.0;
      }
      NeedPositive(rate, tokens);
      return false, Need(rate, tokens);
    }

    /** Takes a token, if asked to by waiting for it; with a burst below one waiting would never end,
        unless the timeout turns the caller away. */
    method Acquire(wait: bool, timeout: real) returns (granted: bool)
      requires Valid() && (wait ==> 1 <= burst || timeout < Need(rate, burst as real))
      modifies this`tokens, this`updated, this`grants, clock
      ensures Valid() && old(clock.now) <= clock.now
      ensures granted ==> grants == old(grants) + [updated] && Fits(rate, burst, old(grants), updated)
      ensures !granted ==> grants == old(grants) && !Fits(rate, burst, grants, updated)
    {
      hide Fits;
      hide Reflects;
      hide Need;
      hide Supply;
      var need;
      ghost var first := Bucket(tokens, updated);
      granted, need := Attempt();
      if burst < 1 {
        NothingBelowOne(rate, burst, first, clock.now);
      }
      while !granted
        invariant Valid() && old(clock.now) <= clock.now
        invariant granted ==> grants == old(grants) + [updated] && Fits(rate, burst, old(grants), updated)
        invariant !granted ==> grants == old(grants) && !Fits(rate, burst, grants, updated)
        invariant !granted ==> 0.0 < need == Need(rate, tokens) && updated == clock.now
        invariant !granted && wait && burst < 1 ==> timeout < need
        decreases if granted then 0 else (2.0 * need).Floor + 1
      {
        if !wait || timeout < need {
          return false;
        }
        ghost var before := Bucket(tokens, updated);
        clock.Sleep(Min(need, 0.5));
        granted, need := Attempt();
        if !granted {
          WaitShortens(rate, burst, before, clock.now);
        }
      }
    }
  }
}
