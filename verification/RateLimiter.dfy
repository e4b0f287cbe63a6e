/**
 The token bucket. Each pass of the acquire loop holds the lock, reads the clock, refills, expires old
 grant times and either grants or sleeps; times are nanoseconds. Whatever the callers, a run is the
 sequence of clock readings of these passes, which never decreases.
 */
module RateLimiter {
  import opened Numbers
  import opened Wrappers

  const SECOND: nat := 1_000_000_000
  const WIDTH: nat := 0x1_0000_0000

  type U32 = n: nat | n < WIDTH

  datatype Limits = Limits(rate: U32, burst: U32)

  datatype Bucket = Bucket(tokens: nat, lastRefill: nat, stamps: seq<nat>)

  // The product is truncated to 32 bits by saturation; the sum that follows wraps.
  function TokensToAdd(rate: nat, elapsed: nat): nat { MinInt(rate * elapsed / SECOND, WIDTH - 1) }

  function Refill(c: Limits, b: Bucket, now: nat): Bucket
    requires b.lastRefill <= now
  {
    var add := TokensToAdd(c.rate, now - b.lastRefill);
    if add > 0 then b.(tokens := MinInt((b.tokens + add) % WIDTH, c.burst), lastRefill := now) else b
  }

  function Expire(stamps: seq<nat>, now: int): seq<nat> {
    if stamps != [] && now - stamps[0] > SECOND then Expire(stamps[1..], now) else stamps
  }

  /** One pass of the acquire loop, and whether it granted. */
  function Pass(c: Limits, b: Bucket, now: nat): (Bucket, bool)
    requires b.lastRefill <= now
  {
    var r := Refill(c, b, now);
    var kept := Expire(r.stamps, now);
    if r.tokens > 0 then (Bucket(r.tokens - 1, r.lastRefill, kept + [now]), true)
    else (r.(stamps := kept), false)
  }

  /** What the time since the last refill is worth, in nanoseconds of refill. */
  function Worth(c: Limits, b: Bucket, now: nat): nat
    requires b.lastRefill <= now
  {
    c.rate * (now - b.lastRefill)
  }

  /** The sum of a refill fits 32 bits. */
  predicate Unwrapped(c: Limits, b: Bucket, now: nat) {
    b.lastRefill <= now && b.tokens + Worth(c, b, now) / SECOND < 0x1_0000_0000
  }

  /** A pass grants exactly when a token is there or a whole one has been refilled, unless the sum wraps. */
  lemma PassGrantsIff(c: Limits, b: Bucket, now: nat)
    requires Fits(c, b, now) && Unwrapped(c, b, now)
    ensures Pass(c, b, now).1 <==> b.tokens > 0 || (c.burst > 0 && c.rate * (now - b.lastRefill) >= SECOND)
  {
    var product := c.rate * (now - b.lastRefill);
    assert product >= SECOND <==> product / SECOND > 0;
  }

  /**
   When the sum wraps a token can be lost to the refill: one token in hand and the most a refill can add make
   none, and the pass does not grant.
   */
  lemma WrapLosesToken() returns (c: Limits, b: Bucket, now: nat)
    ensures Fits(c, b, now) && b.tokens == 1 && c.burst > 0 && !Unwrapped(c, b, now) && !Pass(c, b, now).1
  {
    c, b, now := Limits(10, 10), Bucket(1, 0, []), SECOND * 0x1_0000_0000;
    assert TokensToAdd(10, now) == WIDTH - 1;
  }

  // ---- Runs ----

  predicate Monotone(start: nat, clock: History<nat>) {
    clock.Then? ==> Monotone(start, clock.before) && Latest(start, clock.before) <= clock.last
  }

  function Latest(start: nat, clock: History<nat>): nat {
    match clock case Start => start case Then(_, now) => now
  }

  predicate Fits(c: Limits, b: Bucket, now: nat) { b.tokens <= c.burst && b.lastRefill <= now }

  function After(c: Limits, b: Bucket, start: nat, clock: History<nat>): (r: Bucket)
    requires Fits(c, b, start) && Monotone(start, clock)
    ensures Fits(c, r, Latest(start, clock))
  {
    match clock
    case Start => b
    case Then(before, now) => Pass(c, After(c, b, start, before), now).0
  }

  function Grants(c: Limits, b: Bucket, start: nat, clock: History<nat>): seq<nat>
    requires Fits(c, b, start) && Monotone(start, clock)
  {
    match clock
    case Start => []
    case Then(before, now) =>
      Grants(c, b, start, before) + (if Pass(c, After(c, b, start, before), now).1 then [now] else [])
  }

  /** How many of the times lie in the window from `lo` to `hi`. */
  function CountIn(times: seq<nat>, lo: int, hi: int): nat {
    if times == [] then 0 else
    CountIn(times[..|times| - 1], lo, hi) + (if lo <= times[|times| - 1] <= hi then 1 else 0)
  }

  lemma CountInAppend(times: seq<nat>, more: seq<nat>, lo: int, hi: int)
    requires |more| <= 1
    ensures CountIn(times + more, lo, hi) == CountIn(times, lo, hi) + CountIn(more, lo, hi)
  {
    if more == [] {
      assert times + more == times;
    } else {
      assert (times + more)[..|times|] == times && more[..0] == [];
    }
  }

  // ---- The window bound ----

  /** Tokens in hand, in nanoseconds of refill, plus the refill time not yet turned into tokens. */
  function Potential(c: Limits, b: Bucket, now: nat): int { b.tokens * SECOND + c.rate * (now - b.lastRefill) }

  /** A pass pays for its grant out of the potential, and leaves less than one token above the burst. */
  lemma PassPays(c: Limits, b: Bucket, now: nat)
    requires Fits(c, b, now)
    ensures var (b', granted) := Pass(c, b, now);
            var paid := Potential(c, b', now) + (if granted then SECOND else 0);
            && 0 <= Potential(c, b', now)
            && paid <= Potential(c, b, now) && paid < (c.burst + 1) * SECOND
  {
    var elapsed := now - b.lastRefill;
    var product := c.rate * elapsed;
    assert product >= 0;
    assert product / SECOND * SECOND <= product < product / SECOND * SECOND + SECOND;
    assert TokensToAdd(c.rate, elapsed) * SECOND <= product;
    var r := Refill(c, b, now);
    assert c.rate * (now - now) == 0;
    assert r.tokens <= b.tokens + TokensToAdd(c.rate, elapsed);
  }

  lemma PotentialGrows(c: Limits, b: Bucket, now: nat, later: nat)
    requires now <= later
    ensures Potential(c, b, later) == Potential(c, b, now) + c.rate * (later - now)
  {
    assert c.rate * (later - b.lastRefill) == c.rate * (now - b.lastRefill) + c.rate * (later - now);
  }

  /** Inside a window, what was granted and what is left are covered by the burst and the time gone by. */
  ghost predicate Covered(c: Limits, b: Bucket, now: nat, granted: nat, lo: int, hi: int) {
    && (now < lo ==> granted == 0)
    && (lo <= now <= hi ==> granted * SECOND + Potential(c, b, now) < (c.burst + 1) * SECOND + c.rate * (now - lo))
    && (hi < now ==> granted * SECOND < (c.burst + 1) * SECOND + c.rate * (hi - lo))
  }

  lemma MoreTimeMoreRefill(rate: nat, short: int, long: int)
    requires 0 <= short <= long
    ensures 0 <= rate * short <= rate * long && rate * long == rate * short + rate * (long - short)
  {
  }

  lemma PassKeepsCovered(c: Limits, b: Bucket, was: nat, now: nat, granted: nat, lo: int, hi: int)
    requires Fits(c, b, was) && was <= now && lo <= hi && Covered(c, b, was, granted, lo, hi)
    ensures var (b', g) := Pass(c, b, now);
            Covered(c, b', now, granted + (if g && lo <= now <= hi then 1 else 0), lo, hi)
  {
    PassPays(c, b, now);
    if lo <= was <= now <= hi {
      PotentialGrows(c, b, was, now);
      MoreTimeMoreRefill(c.rate, was - lo, now - lo);
    } else if was < lo <= now <= hi {
      MoreTimeMoreRefill(c.rate, 0, now - lo);
    } else if was < lo && hi < now {
      MoreTimeMoreRefill(c.rate, 0, hi - lo);
    } else if lo <= was <= hi < now {
      MoreTimeMoreRefill(c.rate, was - lo, hi - lo);
      MoreTimeMoreRefill(c.rate, 0, was - b.lastRefill);
    }
  }

  // Where the start lies is a matter of the window: before it, inside it or past it.
  lemma StartIsCovered(c: Limits, b: Bucket, start: nat, lo: int, hi: int)
    requires b.tokens == c.burst && b.lastRefill == start && lo <= hi
    ensures Covered(c, b, start, 0, lo, hi)
  {
    assert c.rate * (start - start) == 0;
    if lo <= start { MoreTimeMoreRefill(c.rate, 0, start - lo); }
    MoreTimeMoreRefill(c.rate, 0, hi - lo);
  }

  lemma {:induction false} RunIsCovered(c: Limits, b: Bucket, start: nat, clock: History<nat>, lo: int, hi: int)
    requires b == Bucket(c.burst, start, []) && Monotone(start, clock) && lo <= hi
    ensures Covered(c, After(c, b, start, clock), Latest(start, clock), CountIn(Grants(c, b, start, clock), lo, hi), lo, hi)
  {
    match clock
    case Start => StartIsCovered(c, b, start, lo, hi);
    case Then(before, now) =>
      RunIsCovered(c, b, start, before, lo, hi);
      var reached := After(c, b, start, before);
      var g := if Pass(c, reached, now).1 then [now] else [];
      PassKeepsCovered(c, reached, Latest(start, before), now, CountIn(Grants(c, b, start, before), lo, hi), lo, hi);
      CountInAppend(Grants(c, b, start, before), g, lo, hi);
      assert CountIn(g, lo, hi) == if g != [] && lo <= now <= hi then 1 else 0;
  }

  /**
   In every run, every window of length w grants strictly fewer than burst + 1 + rate * w requests,
   and the bucket never holds more than burst tokens.
   */
  lemma WindowBound(c: Limits, start: nat, clock: History<nat>, lo: int, hi: int)
    requires Monotone(start, clock) && lo <= hi
    ensures var b := Bucket(c.burst, start, []);
            && CountIn(Grants(c, b, start, clock), lo, hi) * 1_000_000_000 < (c.burst + 1) * 1_000_000_000 + c.rate * (hi - lo)
            && After(c, b, start, clock).tokens <= c.burst
  {
    var b := Bucket(c.burst, start, []);
    RunIsCovered(c, b, start, clock, lo, hi);
    CoveredIsBounded(c, After(c, b, start, clock), Latest(start, clock), CountIn(Grants(c, b, start, clock), lo, hi), lo, hi);
  }

  lemma CoveredIsBounded(c: Limits, b: Bucket, now: nat, granted: nat, lo: int, hi: int)
    requires Fits(c, b, now) && lo <= hi && Covered(c, b, now, granted, lo, hi)
    ensures granted * SECOND < (c.burst + 1) * SECOND + c.rate * (hi - lo)
  {
    MoreTimeMoreRefill(c.rate, 0, hi - lo);
    MoreTimeMoreRefill(c.rate, 0, now - b.lastRefill);
    if lo <= now <= hi { MoreTimeMoreRefill(c.rate, now - lo, hi - lo); }
  }

  // ---- What a pass gives at least ----

  lemma RefillGives(tokens: nat, product: nat, burst: nat)
    requires tokens <= burst < WIDTH && tokens + product / SECOND < WIDTH
    ensures var full := MinInt((tokens + MinInt(product / SECOND, WIDTH - 1)) % WIDTH, burst);
            full * SECOND > MinInt(tokens * SECOND + product, burst * SECOND) - SECOND
  {
  }

  // A grant is paid out of what the refill left.
  lemma PassIsRefill(c: Limits, b: Bucket, now: nat)
    requires Fits(c, b, now)
    ensures var (b', granted) := Pass(c, b, now);
            Potential(c, b', now) + (if granted then SECOND else 0) == Potential(c, Refill(c, b, now), now)
  {
  }

  lemma RefillKeepsMost(c: Limits, b: Bucket, now: nat, product: nat)
    requires Fits(c, b, now) && product == Worth(c, b, now) && b.tokens + product / SECOND < WIDTH
    ensures var kept := Potential(c, Refill(c, b, now), now);
            kept > MinInt(b.tokens * SECOND + product, c.burst * SECOND) - SECOND
  {
    RefillGives(b.tokens, product, c.burst);
    var r := Refill(c, b, now);
    if product >= SECOND {
      assert r.lastRefill == now && c.rate * (now - now) == 0;
      assert r.tokens == MinInt((b.tokens + MinInt(product / SECOND, WIDTH - 1)) % WIDTH, c.burst);
    } else {
      assert product / SECOND == 0 && r == b;
    }
  }

  /**
   A pass gives up less than one token of its potential, as far as this is within the burst; `product` is what the
   time since the last refill is worth.
   */
  lemma PassGives(c: Limits, b: Bucket, now: nat, product: nat)
    requires Fits(c, b, now) && product == Worth(c, b, now) && b.tokens + product / SECOND < WIDTH
    ensures var (b', granted) := Pass(c, b, now);
            Potential(c, b', now) + (if granted then SECOND else 0) >
            MinInt(b.tokens * SECOND + product, c.burst * SECOND) - SECOND
  {
    PassIsRefill(c, b, now);
    RefillKeepsMost(c, b, now, product);
  }

  lemma RefillFills(tokens: nat, product: nat, burst: nat)
    requires tokens <= burst < WIDTH && tokens + product / SECOND < WIDTH
    ensures var full := MinInt((tokens + MinInt(product / SECOND, WIDTH - 1)) % WIDTH, burst);
            tokens <= full && (product >= burst * SECOND ==> full == burst)
  {
    if product >= burst * SECOND { assert product / SECOND >= burst; }
  }

  /** After a pass tokens are only fewer by the one it granted, and with enough time gone by the bucket was full. */
  lemma PassFills(c: Limits, b: Bucket, now: nat, product: nat)
    requires Fits(c, b, now) && product == Worth(c, b, now) && b.tokens + product / SECOND < WIDTH
    ensures var (b', granted) := Pass(c, b, now);
            var filled := b'.tokens + (if granted then 1 else 0);
            filled >= b.tokens && (granted <==> filled > 0) && (product >= c.burst * SECOND ==> filled == c.burst)
  {
    RefillFills(b.tokens, product, c.burst);
  }

  /** The time since the last refill is worth the whole burst. */
  predicate Idle(c: Limits, b: Bucket, now: nat) {
    b.lastRefill <= now && Worth(c, b, now) >= c.burst * 1_000_000_000
  }

  lemma FirstPass(c: Limits, b: Bucket, now: nat)
    requires Fits(c, b, now) && Unwrapped(c, b, now) && Idle(c, b, now) && c.burst > 0
    ensures Pass(c, b, now).1 && Pass(c, b, now).0.tokens == c.burst - 1
  {
    PassFills(c, b, now, Worth(c, b, now));
  }

  lemma NextPass(c: Limits, b: Bucket, now: nat)
    requires Fits(c, b, now) && Unwrapped(c, b, now) && b.tokens > 0
    ensures Pass(c, b, now).1 && Pass(c, b, now).0.tokens >= b.tokens - 1
  {
    PassFills(c, b, now, Worth(c, b, now));
  }

  predicate AllUnwrapped(c: Limits, b: Bucket, start: nat, clock: History<nat>)
    requires Fits(c, b, start) && Monotone(start, clock)
  {
    clock.Then? ==> AllUnwrapped(c, b, start, clock.before) && Unwrapped(c, After(c, b, start, clock.before), clock.last)
  }

  function First(clock: History<nat>): nat
    requires clock.Then?
  {
    if clock.before.Then? then First(clock.before) else clock.last
  }

  /**
   After an idle time in which the whole burst is refilled, at the latest burst / rate seconds after the last
   refill, the next passes all grant, as many of them as the burst.
   */
  lemma {:induction false} BurstGrants(c: Limits, b: Bucket, start: nat, clock: History<nat>)
    requires Fits(c, b, start) && Monotone(start, clock) && AllUnwrapped(c, b, start, clock)
    requires clock.Then? && clock.Length() <= c.burst && Idle(c, b, First(clock))
    ensures |Grants(c, b, start, clock)| == clock.Length()
    ensures After(c, b, start, clock).tokens >= c.burst - clock.Length()
  {
    if clock.before.Then? { BurstGrants(c, b, start, clock.before); }
    if clock.before.Then? { NextPass(c, After(c, b, start, clock.before), clock.last); } else { FirstPass(c, b, clock.last); }
  }

  // ---- The deque of grant times ----

  ghost predicate Sorted(times: seq<nat>, now: nat) {
    && (forall i, j :: 0 <= i < j < |times| ==> times[i] <= times[j])
    && (forall i :: 0 <= i < |times| ==> times[i] <= now)
  }

  /** The deque is the tail of all grants that starts with the first one of the last second. */
  ghost predicate LastSecond(stamps: seq<nat>, grants: seq<nat>, now: int) {
    && |stamps| <= |grants|
    && var k := |grants| - |stamps|;
       && stamps == grants[k..]
       && (forall i :: 0 <= i < k ==> now - grants[i] > SECOND)
       && (forall i :: k <= i < |grants| ==> now - grants[i] <= SECOND)
  }

  lemma {:induction false} ExpireMovesTail(stamps: seq<nat>, grants: seq<nat>, was: nat, now: nat)
    requires was <= now && Sorted(grants, was) && |stamps| <= |grants| && stamps == grants[|grants| - |stamps|..]
    requires forall i :: 0 <= i < |grants| - |stamps| ==> now - grants[i] > SECOND
    ensures LastSecond(Expire(stamps, now), grants, now)
    decreases |stamps|
  {
    if stamps != [] && now - stamps[0] > SECOND { ExpireMovesTail(stamps[1..], grants, was, now); }
  }

  lemma PassKeepsLastSecond(c: Limits, b: Bucket, grants: seq<nat>, was: nat, now: nat)
    requires Fits(c, b, was) && was <= now && Sorted(grants, was) && LastSecond(b.stamps, grants, was)
    ensures var (b', g) := Pass(c, b, now);
            var grants' := grants + (if g then [now] else []);
            Sorted(grants', now) && LastSecond(b'.stamps, grants', now)
  {
    ExpireMovesTail(b.stamps, grants, was, now);
  }

  lemma {:induction false} RunKeepsLastSecond(c: Limits, b: Bucket, start: nat, clock: History<nat>)
    requires b == Bucket(c.burst, start, []) && Monotone(start, clock)
    ensures Sorted(Grants(c, b, start, clock), Latest(start, clock))
    ensures LastSecond(After(c, b, start, clock).stamps, Grants(c, b, start, clock), Latest(start, clock))
  {
    match clock
    case Start =>
    case Then(before, now) =>
      RunKeepsLastSecond(c, b, start, before);
      PassKeepsLastSecond(c, After(c, b, start, before), Grants(c, b, start, before), Latest(start, before), now);
  }

  lemma {:induction false} CountTail(grants: seq<nat>, now: nat, lo: int, k: nat)
    requires k <= |grants| && Sorted(grants, now)
    requires forall i :: 0 <= i < k ==> grants[i] < lo
    ensures CountIn(grants, lo, now) == CountIn(grants[k..], lo, now)
    ensures (forall i :: k <= i < |grants| ==> lo <= grants[i]) ==> CountIn(grants, lo, now) == |grants| - k
  {
    if grants != [] {
      var front := grants[..|grants| - 1];
      if k < |grants| {
        CountTail(front, now, lo, k);
        assert grants[k..][..|grants[k..]| - 1] == front[k..];
      } else {
        CountTail(front, now, lo, k - 1);
        assert front[k - 1..] == [] == grants[k..];
      }
    }
  }

  /**
   After every pass the deque is sorted, is exactly the grants of the last second, and holds at most
   burst + rate of them.
   */
  lemma DequeIsLastSecond(c: Limits, b: Bucket, start: nat, clock: History<nat>)
    requires b == Bucket(c.burst, start, []) && Monotone(start, clock)
    ensures Sorted(After(c, b, start, clock).stamps, Latest(start, clock))
    ensures LastSecond(After(c, b, start, clock).stamps, Grants(c, b, start, clock), Latest(start, clock))
    ensures |After(c, b, start, clock).stamps| ==
            CountIn(Grants(c, b, start, clock), Latest(start, clock) - 1_000_000_000, Latest(start, clock)) <= c.burst + c.rate
  {
    var now := Latest(start, clock);
    RunKeepsLastSecond(c, b, start, clock);
    TailIsWindow(After(c, b, start, clock).stamps, Grants(c, b, start, clock), now);
    OneSecondBound(c, start, clock, now);
  }

  lemma TailIsWindow(stamps: seq<nat>, grants: seq<nat>, now: nat)
    requires Sorted(grants, now) && LastSecond(stamps, grants, now)
    ensures Sorted(stamps, now) && |stamps| == CountIn(grants, now - SECOND, now)
  {
    CountTail(grants, now, now - SECOND, |grants| - |stamps|);
  }

  lemma OneSecondBound(c: Limits, start: nat, clock: History<nat>, now: nat)
    requires Monotone(start, clock)
    ensures CountIn(Grants(c, Bucket(c.burst, start, []), start, clock), now - SECOND, now) <= c.burst + c.rate
  {
    WindowBound(c, start, clock, now - SECOND, now);
    var n := CountIn(Grants(c, Bucket(c.burst, start, []), start, clock), now - SECOND, now);
    assert now - (now - SECOND) == SECOND;
  }

  /** At any later time, counting the deque's recent entries counts every grant of the last second. */
  lemma StatsAreExact(c: Limits, start: nat, clock: History<nat>, now: nat)
    requires Monotone(start, clock) && Latest(start, clock) <= now
    ensures var b := Bucket(c.burst, start, []);
            CountIn(After(c, b, start, clock).stamps, now - SECOND, now) ==
            CountIn(Grants(c, b, start, clock), now - SECOND, now)
  {
    var b := Bucket(c.burst, start, []);
    RunKeepsLastSecond(c, b, start, clock);
    var grants, stamps := Grants(c, b, start, clock), After(c, b, start, clock).stamps;
    CountTail(grants, now, now - SECOND, |grants| - |stamps|);
  }

  // ---- The limiter ----

  function Readings(clock: seq<nat>, n: nat): History<nat>
    requires n <= |clock|
  {
    if n == 0 then Start else Then(Readings(clock, n - 1), clock[n - 1])
  }

  lemma {:induction false} MonotonePrefix(start: nat, clock: seq<nat>, n: nat)
    requires n <= |clock| && Monotone(start, Readings(clock, |clock|))
    ensures Monotone(start, Readings(clock, n))
    decreases |clock| - n
  {
    if n < |clock| { MonotonePrefix(start, clock, n + 1); }
  }

  /** After `passes` readings: the bucket is where the run leads, and only the last pass may have granted. */
  ghost predicate Passed(c: Limits, b: Bucket, start: nat, clock: seq<nat>, passes: nat, reached: Bucket, granted: bool) {
    && passes <= |clock| && (granted ==> passes > 0)
    && Fits(c, b, start) && Monotone(start, Readings(clock, passes))
    && reached == After(c, b, start, Readings(clock, passes))
    && Grants(c, b, start, Readings(clock, passes)) == if granted then [clock[passes - 1]] else []
  }

  lemma PassOnce(c: Limits, b: Bucket, start: nat, clock: seq<nat>, passes: nat, reached: Bucket)
    requires passes < |clock| && Monotone(start, Readings(clock, |clock|))
    requires Passed(c, b, start, clock, passes, reached, false)
    ensures Fits(c, reached, clock[passes])
    ensures var (next, granted) := Pass(c, reached, clock[passes]); Passed(c, b, start, clock, passes + 1, next, granted)
  {
    MonotonePrefix(start, clock, passes + 1);
  }

  class Limiter {
    const limits: Limits
    var tokens: nat
    var lastRefill: nat
    var timestamps: seq<nat>

    ghost function Contents(): Bucket reads this { Bucket(tokens, lastRefill, timestamps) }

    constructor (limits: Limits, now: nat)
      ensures this.limits == limits && Contents() == Bucket(limits.burst, now, [])
    {
      this.limits := limits;
      tokens, lastRefill, timestamps := limits.burst, now, [];
    }

    /** One locked pass. */
    method TryAcquire(now: nat) returns (granted: bool)
      requires Fits(limits, Contents(), now)
      modifies this
      ensures (Contents(), granted) == Pass(limits, old(Contents()), now)
      ensures Fits(limits, Contents(), now)
    {
      var elapsed := now - lastRefill;
      var tokensToAdd := TokensToAdd(limits.rate, elapsed);
      if tokensToAdd > 0 {
        tokens := MinInt((tokens + tokensToAdd) % WIDTH, limits.burst);
        lastRefill := now;
      }
      while timestamps != [] && now - timestamps[0] > SECOND
        invariant Expire(timestamps, now) == Expire(old(timestamps), now)
        invariant Contents() == Refill(limits, old(Contents()), now).(stamps := timestamps)
        decreases |timestamps|
      {
        timestamps := timestamps[1..];
      }
      granted := tokens > 0;
      if granted {
        tokens := tokens - 1;
        timestamps := timestamps + [now];
      }
    }

    /**
     The loop: `clock` gives the readings of this caller's passes. It stops at the first pass that
     grants; it ends without a grant only when the readings run out.
     */
    method Acquire(clock: seq<nat>, ghost start: nat) returns (granted: bool, passes: nat)
      requires Fits(limits, Contents(), start) && Monotone(start, Readings(clock, |clock|))
      modifies this
      ensures Passed(limits, old(Contents()), start, clock, passes, Contents(), granted)
      ensures !granted ==> passes == |clock|
    {
      granted, passes := false, 0;
      while !granted && passes < |clock|
        invariant Passed(limits, old(Contents()), start, clock, passes, Contents(), granted)
        decreases |clock| - passes
      {
        ghost var before := Contents();
        PassOnce(limits, old(Contents()), start, clock, passes, before);
        granted := TryAcquire(clock[passes]);
        passes := passes + 1;
      }
    }

    method Stats(now: nat) returns (available: nat, requestsLastSecond: nat)
      requires forall i :: 0 <= i < |timestamps| ==> timestamps[i] <= now
      ensures available == tokens && requestsLastSecond == CountIn(timestamps, now - SECOND, now)
    {
      available, requestsLastSecond := tokens, 0;
      for i := 0 to |timestamps|
        invariant requestsLastSecond == CountIn(timestamps[..i], now - SECOND, now)
      {
        assert timestamps[..i + 1][..i] == timestamps[..i];
        if now - timestamps[i] <= SECOND { requestsLastSecond := requestsLastSecond + 1; }
      }
      assert timestamps[..|timestamps|] == timestamps;
    }
  }
}
