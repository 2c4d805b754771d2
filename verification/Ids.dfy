/** Monotonic entity ids: fixed-width base 32, and the generator that never steps back. */
module Ids {

  const CROCKFORD := "0123456789ABCDEFGHJKMNPQRSTVWXYZ"
  const TIME_CHARS: nat := 10
  const RANDOM_CHARS: nat := 16

  function Power(n: nat): (p: nat)
    ensures p > 0
  {
    if n == 0 then 1 else 32 * Power(n - 1)
  }

  /** Random components have 80 bits, time stamps that are encoded faithfully 50. */
  function RandomLimit(): nat { Power(RANDOM_CHARS) }
  function TimeLimit(): nat { Power(TIME_CHARS) }

  /** The encoding, last digit last. */
  function Base32(value: nat, length: nat): (s: string)
    ensures |s| == length
  {
    if length == 0 then "" else Base32(value / 32, length - 1) + [CROCKFORD[value % 32]]
  }

  function Digit(c: char, from: nat := 0): nat
    requires from <= 32
    decreases 32 - from
  {
    if from == 32 || CROCKFORD[from] == c then from else Digit(c, from + 1)
  }

  function Decode(s: string): nat {
    if s == "" then 0 else 32 * Decode(s[..|s| - 1]) + Digit(s[|s| - 1])
  }

  /** The alphabet is in ascending order. */
  lemma {:induction false} Ascending(d: nat, e: nat)
    requires d < e < 32
    ensures CROCKFORD[d] < CROCKFORD[e]
    decreases e - d
  {
    hide Digit;
    if d + 1 < e {
      Ascending(d + 1, e);
      Ascending(d, d + 1);
    }
  }

  lemma {:induction false} DigitOf(d: nat, from: nat)
    requires from <= d < 32
    ensures Digit(CROCKFORD[d], from) == d
    decreases d - from
  {
    if from < d {
      Ascending(from, d);
      DigitOf(d, from + 1);
    }
  }

  /** Decoding gives back the value, as far as it fits into the width. */
  lemma {:induction false} RoundTrip(value: nat, length: nat)
    ensures Decode(Base32(value, length)) == value % Power(length)
  {
    if length > 0 {
      RoundTrip(value / 32, length - 1);
      DigitOf(value % 32, 0);
      Remainder(value, Power(length - 1));
      var s := Base32(value / 32, length - 1);
      assert (s + [CROCKFORD[value % 32]])[..length - 1] == s;
    }
  }

  lemma Remainder(value: nat, p: nat)
    requires p > 0
    ensures value % (32 * p) == 32 * (value / 32 % p) + value % 32
  {
    var q, r := value / 32, value % 32;
    var k, m := q / p, q % p;
    assert value == 32 * (k * p + m) + r;
    assert value == (32 * p) * k + (32 * m + r);
    assert 32 * m + r < 32 * p;
    DivisionIsUnique(value, 32 * p, k, 32 * m + r);
  }

  lemma Multiples(p: int, d: int)
    requires 0 < p
    ensures 1 <= d ==> p <= p * d
    ensures d <= -1 ==> p * d <= -p
  {
    if 1 <= d {
      assert p * (d - 1) >= 0;
    } else if d <= -1 {
      assert p * (-1 - d) >= 0;
    }
  }

  lemma DivisionIsUnique(value: nat, p: nat, k: nat, r: nat)
    requires r < p && value == p * k + r
    ensures value % p == r
  {
    var k1, r1 := value / p, value % p;
    assert value == p * k1 + r1;
    assert p * (k1 - k) == p * k1 - p * k;
    Multiples(p, k1 - k);
  }

  /** Two values have the same encoding exactly when they agree within the width. */
  lemma Injective(a: nat, b: nat, length: nat)
    ensures Base32(a, length) == Base32(b, length) <==> a % Power(length) == b % Power(length)
  {
    RoundTrip(a, length);
    RoundTrip(b, length);
    if a % Power(length) == b % Power(length) {
      Truncated(a, length);
      Truncated(b, length);
    }
  }

  lemma {:induction false} Truncated(value: nat, length: nat)
    ensures Base32(value % Power(length), length) == Base32(value, length)
  {
    if length > 0 {
      var p := Power(length - 1);
      Remainder(value, p);
      Truncated(value / 32, length - 1);
      var v := value % (32 * p);
      assert v / 32 == value / 32 % p && v % 32 == value % 32;
    }
  }

  // ------------------------------------------------------------------ text order

  /** Texts of equal length compare by their first difference. */
  predicate Below(s: string, t: string) {
    s != "" && t != "" && (s[0] < t[0] || (s[0] == t[0] && Below(s[1..], t[1..])))
  }

  lemma {:induction false} BelowAppended(s: string, t: string, u: string, v: string)
    requires |s| == |t|
    ensures Below(s + u, t + v) <==> Below(s, t) || (s == t && Below(u, v))
  {
    if s == "" {
      assert s + u == u && t + v == v;
    } else {
      BelowAppended(s[1..], t[1..], u, v);
      assert (s + u)[1..] == s[1..] + u && (t + v)[1..] == t[1..] + v;
      assert s == [s[0]] + s[1..] && t == [t[0]] + t[1..];
    }
  }

  lemma DigitsCompare(d: nat, e: nat)
    requires d < 32 && e < 32
    ensures Below([CROCKFORD[d]], [CROCKFORD[e]]) <==> d < e
  {
    if d < e {
      Ascending(d, e);
    } else if e < d {
      Ascending(e, d);
    }
    assert [CROCKFORD[d]][1..] == "";
  }

  /** For values that fit the width the order of the texts is the order of the values. */
  lemma {:induction false} OrderPreserving(a: nat, b: nat, length: nat)
    requires a < Power(length) && b < Power(length)
    ensures Below(Base32(a, length), Base32(b, length)) <==> a < b
  {
    if length > 0 {
      OrderPreserving(a / 32, b / 32, length - 1);
      Injective(a / 32, b / 32, length - 1);
      DigitsCompare(a % 32, b % 32);
      BelowAppended(Base32(a / 32, length - 1), Base32(b / 32, length - 1), [CROCKFORD[a % 32]], [CROCKFORD[b % 32]]);
      Small(a / 32, Power(length - 1));
      Small(b / 32, Power(length - 1));
    }
  }

  lemma Small(a: nat, p: nat)
    requires a < p
    ensures a % p == a
  {
  }

  // ------------------------------------------------------------------ the generator

  /** What the process remembers between two ids. */
  datatype Memory = Memory(ms: nat, random: nat, pid: int)

  const FRESH: Memory := Memory(0, 0, 0)

  /** One call: the clock, the process id, and what the entropy source would deliver. */
  datatype Mint = Mint(now: int, pid: int, entropy: nat)

  predicate Sound(mint: Mint) {
    mint.entropy < RandomLimit()
  }

  function Minted(m: Memory, mint: Mint): Memory {
    if m.ms < mint.now then Memory(mint.now, mint.entropy, mint.pid)
    else if mint.pid != m.pid then Memory(m.ms, mint.entropy, mint.pid)
    else if RandomLimit() <= m.random + 1 then Memory(m.ms + 1, 0, mint.pid)
    else Memory(m.ms, m.random + 1, mint.pid)
  }

  function Body(m: Memory): string {
    Base32(m.ms, TIME_CHARS) + Base32(m.random, RANDOM_CHARS)
  }

  function Id(prefix: string, m: Memory): string {
    prefix + "_" + Body(m)
  }

  /** Ids with the same prefix compare like the memories they were minted from. */
  lemma IdsCompare(prefix: string, m: Memory, m1: Memory)
    requires m.ms < TimeLimit() && m1.ms < TimeLimit() && m.random < RandomLimit() && m1.random < RandomLimit()
    ensures Below(Id(prefix, m), Id(prefix, m1)) <==> m.ms < m1.ms || (m.ms == m1.ms && m.random < m1.random)
  {
    BelowAppended(prefix + "_", prefix + "_", Body(m), Body(m1));
    BelowAppended(Base32(m.ms, TIME_CHARS), Base32(m1.ms, TIME_CHARS), Base32(m.random, RANDOM_CHARS), Base32(m1.random, RANDOM_CHARS));
    OrderPreserving(m.ms, m1.ms, TIME_CHARS);
    OrderPreserving(m.random, m1.random, RANDOM_CHARS);
    Injective(m.ms, m1.ms, TIME_CHARS);
    Small(m.ms, TimeLimit());
    Small(m1.ms, TimeLimit());
    Irreflexive(prefix + "_");
    hide Base32;
    hide Power;
  }

  lemma {:induction false} Irreflexive(s: string)
    ensures !Below(s, s)
  {
    if s != "" {
      Irreflexive(s[1..]);
    }
  }

  /** The next id is greater than the one before exactly when the clock has advanced, the process
      is the same, or a forked child happens to draw a greater random component. */
  lemma GreaterExactlyWhen(prefix: string, m: Memory, mint: Mint)
    requires Sound(mint) && m.random < RandomLimit() && Minted(m, mint).ms < TimeLimit()
    ensures Below(Id(prefix, m), Id(prefix, Minted(m, mint)))
      <==> m.ms < mint.now || mint.pid == m.pid || m.random < mint.entropy
  {
    IdsCompare(prefix, m, Minted(m, mint));
    hide Power;
    hide Id;
  }

  function Run(m: Memory, mints: seq<Mint>): Memory {
    if mints == [] then m else Minted(Run(m, mints[..|mints| - 1]), mints[|mints| - 1])
  }

  /** Before in time and value. */
  predicate Precedes(m: Memory, m1: Memory) {
    m.ms < m1.ms || (m.ms == m1.ms && m.random < m1.random)
  }

  lemma {:induction false} RunPrecedes(m: Memory, mints: seq<Mint>)
    requires m.random < RandomLimit()
    requires forall k :: 0 <= k < |mints| ==> Sound(mints[k]) && mints[k].pid == m.pid
    ensures var m1 := Run(m, mints);
      m1.random < RandomLimit() && m1.pid == m.pid && (mints != [] ==> Precedes(m, m1)) && m.ms <= m1.ms
  {
    if mints != [] {
      RunPrecedes(m, mints[..|mints| - 1]);
    }
  }

  /** Within one process that does not fork, every id is greater than every earlier one of the same
      prefix, whatever the clock does, as long as the time stamp fits its 50 bits. */
  lemma StrictlyIncreasing(prefix: string, m: Memory, mints: seq<Mint>, more: seq<Mint>)
    requires m.random < RandomLimit() && more != []
    requires forall k :: 0 <= k < |mints| ==> Sound(mints[k]) && mints[k].pid == m.pid
    requires forall k :: 0 <= k < |more| ==> Sound(more[k]) && more[k].pid == m.pid
    requires Run(Run(m, mints), more).ms < TimeLimit()
    ensures Below(Id(prefix, Run(m, mints)), Id(prefix, Run(Run(m, mints), more)))
  {
    RunPrecedes(m, mints);
    RunPrecedes(Run(m, mints), more);
    IdsCompare(prefix, Run(m, mints), Run(Run(m, mints), more));
  }

  // ------------------------------------------------------------------ the code itself

  /** Takes off five bits at a time, and puts the digits in reverse. */
  method EncodeBase32(value: nat, length: nat) returns (s: string)
    ensures s == Base32(value, length)
  {
    var rest := value;
    s := "";
    for i := 0 to length
      invariant Base32(rest, length - i) + s == Base32(value, length)
    {
      s := [CROCKFORD[rest % 32]] + s;
      rest := rest / 32;
    }
  }

  class IdGenerator {
    var lastMs: nat
    var lastRandom: nat
    var lastPid: int

    ghost function Now(): Memory
      reads this
    {
      Memory(lastMs, lastRandom, lastPid)
    }

    constructor ()
      ensures Now() == FRESH
    {
      lastMs, lastRandom, lastPid := 0, 0, 0;
    }

    method NextId(prefix: string, now: int, pid: int, entropy: nat) returns (id: string)
      requires entropy < RandomLimit()
      modifies this
      ensures Now() == Minted(old(Now()), Mint(now, pid, entropy))
      ensures id == Id(prefix, Now())
    {
      hide Base32;
      hide Power;
      var forked := pid != lastPid;
      if forked {
        lastPid := pid;
      }
      if now > lastMs {
        lastMs, lastRandom := now, entropy;
      } else if forked {
        lastRandom := entropy;
      } else {
        lastRandom := lastRandom + 1;
        if lastRandom >= RandomLimit() {
          lastRandom := 0;
          lastMs := lastMs + 1;
        }
      }
      var time := EncodeBase32(lastMs, TIME_CHARS);
      var random := EncodeBase32(lastRandom, RANDOM_CHARS);
      return prefix + "_" + (time + random);
    }
  }
}
