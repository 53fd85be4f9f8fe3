/**
 * The per-host token bucket kept in one Redis hash
 * (packages/worker-core/src/domain-rate-limiter.ts).
 *
 * Tokens are exact reals and times are whole milliseconds.
 */
module RateLimiter {
  import opened Options
  import opened Clocks
  import opened Polling

  /** The hash fields, and the instant the key expires. */
  datatype Bucket = Bucket(tokens: real, ts: int, expireAt: int)

  datatype Rate = Rate(capacity: real, perSec: real, ttlMs: nat)

  /** What the limiter needs of its options to ever grant anything. */
  predicate Usable(r: Rate) {
    1.0 <= r.capacity && 0.0 < r.perSec
  }

  /** Tokens earned in `ms` milliseconds. */
  function Earned(r: Rate, ms: int): real {
    (ms as real / 1000.0) * r.perSec
  }

  /** One key lifetime is enough to fill the bucket. */
  predicate Refills(r: Rate) {
    r.capacity <= Earned(r, r.ttlMs)
  }

  function Min(a: real, b: real): real {
    if a <= b then a else b
  }

  function Max(a: int, b: int): int {
    if a <= b then b else a
  }

  function Ceil(x: real): int {
    if x == x.Floor as real then x.Floor else x.Floor + 1
  }

  function Live(b: Option<Bucket>, now: int): Option<Bucket> {
    if b.Some? && b.value.expireAt <= now then None else b
  }

  /** A stored bucket refilled up to `now`; a clock that went back earns nothing. */
  function Refilled(r: Rate, b: Bucket, now: int): real {
    Min(r.capacity, b.tokens + Earned(r, Max(0, now - b.ts)))
  }

  /** The tokens on hand at `now`, before one is taken. */
  function OnHand(r: Rate, b: Option<Bucket>, now: int): real {
    var live := Live(b, now);
    if live.None? then r.capacity else Refilled(r, live.value, now)
  }

  /** The consume script: the bucket it stores and the wait it returns, 0 for a grant. */
  function ConsumeStep(r: Rate, b: Option<Bucket>, now: int): (Bucket, int)
    requires 0.0 < r.perSec
  {
    var tokens := OnHand(r, b, now);
    if 1.0 <= tokens
    then (Bucket(tokens - 1.0, now, now + r.ttlMs), 0)
    else (Bucket(tokens, now, now + r.ttlMs), Ceil((1.0 - tokens) / r.perSec * 1000.0))
  }

  predicate Valid(r: Rate, b: Option<Bucket>) {
    b.Some? ==> 0.0 <= b.value.tokens <= r.capacity && b.value.expireAt == b.value.ts + r.ttlMs
  }

  // ----- arithmetic -----

  lemma EarnedAdds(r: Rate, a: int, b: int)
    ensures Earned(r, a + b) == Earned(r, a) + Earned(r, b)
  {
    assert (a + b) as real / 1000.0 == a as real / 1000.0 + b as real / 1000.0;
  }

  lemma EarnedGrows(r: Rate, a: int, b: int)
    requires 0.0 < r.perSec && a <= b
    ensures Earned(r, a) <= Earned(r, b)
    ensures 0 <= a ==> 0.0 <= Earned(r, a)
  {
    EarnedAdds(r, a, b - a);
    ProductNonNegative((b - a) as real / 1000.0, r.perSec);
    if 0 <= a { ProductNonNegative(a as real / 1000.0, r.perSec); }
  }

  lemma ProductNonNegative(x: real, y: real)
    requires 0.0 <= x && 0.0 <= y
    ensures 0.0 <= x * y
  {
  }

  lemma CeilIsLeast(x: real, d: int)
    ensures Ceil(x) <= d <==> x <= d as real
  {
  }

  /** The wait is the least whole number of milliseconds that earns what is missing. */
  lemma WaitEarnsMissing(r: Rate, missing: real, d: int)
    requires 0.0 < r.perSec
    ensures Ceil(missing / r.perSec * 1000.0) <= d <==> missing <= Earned(r, d)
  {
    var x := missing / r.perSec * 1000.0;
    CeilIsLeast(x, d);
    var secs := d as real / 1000.0;
    assert x <= d as real <==> missing / r.perSec <= secs;
    QuotientBound(missing, r.perSec, secs);
  }

  lemma QuotientBound(x: real, y: real, z: real)
    requires 0.0 < y
    ensures x / y <= z <==> x <= z * y
  {
    var q := x / y;
    assert q * y == x;
    if q <= z { ProductNonNegative(z - q, y); assert (z - q) * y == z * y - x; }
    if z < q { StrictProduct(q - z, y); assert (q - z) * y == x - z * y; }
  }

  lemma StrictProduct(x: real, y: real)
    requires 0.0 < x && 0.0 < y
    ensures 0.0 < x * y
  {
  }

  // ----- one call -----

  lemma OnHandBounds(r: Rate, b: Option<Bucket>, now: int)
    requires 0.0 < r.perSec && 0.0 <= r.capacity && Valid(r, b)
    ensures 0.0 <= OnHand(r, b, now) <= r.capacity
  {
    if b.Some? { EarnedGrows(r, 0, Max(0, now - b.value.ts)); }
  }

  lemma StepKeepsValid(r: Rate, b: Option<Bucket>, now: int)
    requires 0.0 < r.perSec && 0.0 <= r.capacity && Valid(r, b)
    ensures Valid(r, Some(ConsumeStep(r, b, now).0))
  {
    OnHandBounds(r, b, now);
  }

  /** The script answers 0 exactly when a whole token is on hand; any other answer is a positive wait. */
  lemma ZeroMeansGranted(r: Rate, b: Option<Bucket>, now: int)
    requires 0.0 < r.perSec
    ensures ConsumeStep(r, b, now).1 == 0 <==> 1.0 <= OnHand(r, b, now)
    ensures 0 <= ConsumeStep(r, b, now).1
  {
    var tokens := OnHand(r, b, now);
    if tokens < 1.0 {
      WaitEarnsMissing(r, 1.0 - tokens, 0);
      assert Earned(r, 0) == 0.0;
    }
  }

  predicate Granted(r: Rate, b: Option<Bucket>, now: int)
    requires 0.0 < r.perSec
  {
    ConsumeStep(r, b, now).1 == 0
  }

  /**
   * After a refusal with wait w and no other caller, a retry d milliseconds later
   * is granted exactly when d >= w (or when the key has expired by then).
   */
  lemma WaitIsLeast(r: Rate, b: Option<Bucket>, now: int, d: nat)
    requires Usable(r) && Valid(r, b) && !Granted(r, b, now)
    ensures var (b', w) := ConsumeStep(r, b, now);
      Granted(r, Some(b'), now + d) <==> w <= d || r.ttlMs <= d
  {
    var tokens := OnHand(r, b, now);
    ZeroMeansGranted(r, b, now);
    var (b', w) := ConsumeStep(r, b, now);
    ZeroMeansGranted(r, Some(b'), now + d);
    WaitEarnsMissing(r, 1.0 - tokens, d);
  }

  // ----- a refusal whose reply comes late -----

  /** One script call: when it ran, what it stored, what it answered. */
  datatype Call = Call(asked: int, stored: Bucket, wait: int)

  predicate Called(r: Rate, b: Option<Bucket>, call: Call)
    requires 0.0 < r.perSec
  {
    Valid(r, b) && ConsumeStep(r, b, call.asked) == (call.stored, call.wait)
  }

  ghost predicate IsCall(r: Rate, call: Call)
    requires 0.0 < r.perSec
  {
    exists b :: Called(r, b, call)
  }

  /** Some uncontended retry between the test and the deadline would be granted. */
  ghost predicate RetryInTime(r: Rate, call: Call, testedAt: int, deadline: int)
    requires 0.0 < r.perSec
  {
    exists t :: testedAt <= t <= deadline && Granted(r, Some(call.stored), t)
  }

  /** The advertised wait, counted from when the script ran, or the key's lifetime ends by the deadline. */
  predicate WastesARetry(r: Rate, call: Call, testedAt: int, deadline: int) {
    testedAt <= deadline && (call.asked + call.wait <= deadline || call.asked + r.ttlMs <= deadline)
  }

  /** No uncontended retry is granted before the wait, counted from when the script ran, is over. */
  lemma RefusedUntil(r: Rate, b: Option<Bucket>, call: Call)
    requires Usable(r) && Called(r, b, call) && call.wait != 0
    ensures forall t :: call.asked <= t < call.asked + call.wait && t < call.asked + r.ttlMs ==>
      !Granted(r, Some(call.stored), t)
  {
    forall t | call.asked <= t < call.asked + call.wait && t < call.asked + r.ttlMs
      ensures !Granted(r, Some(call.stored), t)
    {
      WaitIsLeast(r, b, call.asked, t - call.asked);
    }
  }

  /**
   * The deadline is tested against the wait counted from the test, not from the script.
   * Giving up throws a grantable retry away exactly when the true wait, or the key's
   * lifetime, would still have ended by the deadline.
   */
  lemma RetryInTimeIff(r: Rate, b: Option<Bucket>, call: Call, testedAt: int, deadline: int)
    requires Usable(r) && Called(r, b, call) && call.wait != 0 && call.asked <= testedAt
    ensures RetryInTime(r, call, testedAt, deadline) <==> WastesARetry(r, call, testedAt, deadline)
  {
    if testedAt <= deadline { WaitIsLeast(r, b, call.asked, deadline - call.asked); }
    if RetryInTime(r, call, testedAt, deadline) {
      var t :| testedAt <= t <= deadline && Granted(r, Some(call.stored), t);
      WaitIsLeast(r, b, call.asked, t - call.asked);
    }
  }

  /**
   * Two tokens a second, one at a time: refused at 0 with a wait of 500, tested at 10
   * with the deadline at 505. The call gives up because 10 + 500 > 505, yet a retry at
   * 500 would be granted.
   */
  lemma GivingUpCanBeWrong()
    ensures var r, call := Rate(1.0, 2.0, 300_000), Call(0, Bucket(0.0, 0, 300_000), 500);
      && Usable(r) && IsCall(r, call)
      && 505 < 10 + call.wait && Granted(r, Some(call.stored), 500) && RetryInTime(r, call, 10, 505)
  {
    var r, b := Rate(1.0, 2.0, 300_000), Bucket(0.0, 0, 300_000);
    var call := Call(0, b, 500);
    assert OnHand(r, Some(b), 0) == 0.0;
    assert Called(r, Some(b), call);
    assert OnHand(r, Some(b), 500) == 1.0;
    assert Granted(r, Some(call.stored), 500);
  }

  // ----- runs of calls on one host -----

  function After(r: Rate, b: Option<Bucket>, times: seq<int>): Option<Bucket>
    requires 0.0 < r.perSec
    decreases times
  {
    if times == [] then b else After(r, Some(ConsumeStep(r, b, times[0]).0), times[1..])
  }

  function Grants(r: Rate, b: Option<Bucket>, times: seq<int>): nat
    requires 0.0 < r.perSec
    decreases times
  {
    if times == [] then 0
    else
      (if Granted(r, b, times[0]) then 1 else 0)
      + Grants(r, Some(ConsumeStep(r, b, times[0]).0), times[1..])
  }

  /** The sum of the forward jumps of the clock. */
  function Forward(from: int, times: seq<int>): nat
    decreases times
  {
    if times == [] then 0 else Max(0, times[0] - from) + Forward(times[0], times[1..])
  }

  /** No call finds its key expired. */
  predicate KeyStaysAlive(r: Rate, from: int, times: seq<int>)
    decreases times
  {
    times == [] || (times[0] < from + r.ttlMs && KeyStaysAlive(r, times[0], times[1..]))
  }

  predicate Nondecreasing(times: seq<int>) {
    forall i, j :: 0 <= i <= j < |times| ==> times[i] <= times[j]
  }

  lemma {:induction false} AfterKeepsValid(r: Rate, b: Option<Bucket>, times: seq<int>)
    requires Usable(r) && Valid(r, b)
    ensures Valid(r, After(r, b, times))
    decreases times
  {
    if times != [] {
      StepKeepsValid(r, b, times[0]);
      AfterKeepsValid(r, Some(ConsumeStep(r, b, times[0]).0), times[1..]);
    }
  }

  /** What a stored bucket can still grant: its tokens and what the clock earns it. */
  lemma {:induction false} GrantsFromBucket(r: Rate, b: Bucket, times: seq<int>)
    requires Usable(r) && Valid(r, Some(b))
    requires Refills(r) || KeyStaysAlive(r, b.ts, times)
    ensures Grants(r, Some(b), times) as real <= b.tokens + Earned(r, Forward(b.ts, times))
    decreases times
  {
    if times == [] {
      assert Earned(r, 0) == 0.0;
    } else {
      var now, jump := times[0], Max(0, times[0] - b.ts);
      var b' := ConsumeStep(r, Some(b), now).0;
      StepKeepsValid(r, Some(b), now);
      GrantsFromBucket(r, b', times[1..]);
      EarnedAdds(r, jump, Forward(now, times[1..]));
      ZeroMeansGranted(r, Some(b), now);
      OnHandIsEarned(r, b, now);
    }
  }

  lemma OnHandIsEarned(r: Rate, b: Bucket, now: int)
    requires Usable(r) && Valid(r, Some(b))
    requires Refills(r) || now < b.ts + r.ttlMs
    ensures OnHand(r, Some(b), now) <= b.tokens + Earned(r, Max(0, now - b.ts))
  {
    if b.expireAt <= now { EarnedGrows(r, r.ttlMs, now - b.ts); }
  }

  /**
   * The limiter's bound, for any clock: after any earlier calls, a further run of
   * calls is granted at most one bucket plus what the forward jumps earn.
   */
  lemma GrantsBounded(r: Rate, before: seq<int>, times: seq<int>)
    requires Usable(r) && times != []
    requires Refills(r) || KeyStaysAlive(r, times[0], times[1..])
    ensures Grants(r, After(r, None, before), times) as real
         <= r.capacity + Earned(r, Forward(times[0], times[1..]))
  {
    var b := After(r, None, before);
    AfterKeepsValid(r, None, before);
    OnHandBounds(r, b, times[0]);
    ZeroMeansGranted(r, b, times[0]);
    StepKeepsValid(r, b, times[0]);
    GrantsFromBucket(r, ConsumeStep(r, b, times[0]).0, times[1..]);
  }

  lemma {:induction false} ForwardOfOrdered(from: int, times: seq<int>)
    requires Nondecreasing([from] + times)
    ensures Forward(from, times) == ([from] + times)[|times|] - from
    decreases times
  {
    if times != [] {
      assert ([from] + times)[0] <= ([from] + times)[1];
      assert forall i :: 0 <= i < |times| ==> ([times[0]] + times[1..])[i] == ([from] + times)[i + 1];
      ForwardOfOrdered(times[0], times[1..]);
    }
  }

  /**
   * With a clock that never goes back: capacity + rate x window, for every window, if one
   * TTL refills a bucket or no call of the window finds its key expired.
   */
  lemma WindowBound(r: Rate, before: seq<int>, window: seq<int>)
    requires Usable(r) && window != [] && Nondecreasing(window)
    requires Refills(r) || KeyStaysAlive(r, window[0], window[1..])
    ensures Grants(r, After(r, None, before), window) as real
         <= r.capacity + Earned(r, window[|window| - 1] - window[0])
  {
    assert [window[0]] + window[1..] == window;
    ForwardOfOrdered(window[0], window[1..]);
    GrantsBounded(r, before, window);
  }

  /** `n` calls at one instant. */
  function Burst(n: nat, now: int): (times: seq<int>)
    ensures |times| == n && forall i :: 0 <= i < n ==> times[i] == now
  {
    seq(n, _ => now)
  }

  /** A bucket with n tokens grants n calls at once, and is then empty. */
  lemma {:induction false} BurstIsGranted(r: Rate, b: Bucket, n: nat, later: seq<int>)
    requires Usable(r) && 0 < r.ttlMs && Valid(r, Some(b)) && b.tokens == n as real
    ensures Grants(r, Some(b), Burst(n, b.ts) + later) == n + Grants(r, Some(b.(tokens := 0.0)), later)
    decreases n
  {
    var times := Burst(n, b.ts) + later;
    if n == 0 {
      assert times == later;
    } else {
      assert times[0] == b.ts && times[1..] == Burst(n - 1, b.ts) + later;
      assert Earned(r, 0) == 0.0;
      var b' := ConsumeStep(r, Some(b), b.ts).0;
      assert b' == b.(tokens := (n - 1) as real);
      BurstIsGranted(r, b', n - 1, later);
    }
  }

  /** A missing or expired bucket of whole-number capacity grants that many calls at once. */
  lemma FullBurst(r: Rate, c: nat, b: Option<Bucket>, now: int, later: seq<int>)
    requires Usable(r) && 0 < r.ttlMs && r.capacity == c as real && Live(b, now).None?
    ensures Grants(r, b, Burst(c, now) + later) == c + Grants(r, Some(Bucket(0.0, now, now + r.ttlMs)), later)
  {
    var times := Burst(c, now) + later;
    assert times[0] == now && times[1..] == Burst(c - 1, now) + later;
    var b' := ConsumeStep(r, b, now).0;
    assert b' == Bucket((c - 1) as real, now, now + r.ttlMs);
    BurstIsGranted(r, b', c - 1, later);
  }

  /** Two full buckets in a window of one TTL: the key has expired in between. */
  lemma ExpiryGrantsTwice(r: Rate, c: nat)
    requires Usable(r) && 0 < r.ttlMs && r.capacity == c as real
    ensures var window := Burst(c, 0) + Burst(c, r.ttlMs);
      && Nondecreasing(window) && Grants(r, None, window) == 2 * c
      && window[|window| - 1] - window[0] == r.ttlMs
  {
    var first, second := Burst(c, 0), Burst(c, r.ttlMs);
    var drained := Bucket(0.0, 0, r.ttlMs);
    FullBurst(r, c, None, 0, second);
    FullBurst(r, c, Some(drained), r.ttlMs, []);
    assert second + [] == second;
  }

  /** Without a lifetime the key is gone before every call: each finds a full bucket. */
  lemma {:induction false} NoLifetimeGrantsAll(r: Rate, b: Option<Bucket>, n: nat)
    requires Usable(r) && r.ttlMs == 0 && (b.Some? ==> b.value.expireAt <= 0)
    ensures Grants(r, b, Burst(n, 0)) == n
    decreases n
  {
    if n != 0 {
      var b' := ConsumeStep(r, b, 0).0;
      assert Granted(r, b, 0);
      assert Burst(n, 0)[1..] == Burst(n - 1, 0);
      NoLifetimeGrantsAll(r, Some(b'), n - 1);
    }
  }

  /** A run that breaks the bound, if one TTL does not refill a bucket. */
  lemma UnrefilledBreaksBound(r: Rate, c: nat) returns (window: seq<int>)
    requires Usable(r) && r.capacity == c as real && !Refills(r)
    ensures window != [] && Nondecreasing(window) && !KeepsWindowBound(r, [], window)
  {
    assert After(r, None, []) == None;
    assert Earned(r, 0) == 0.0;
    if r.ttlMs == 0 {
      window := Burst(c + 1, 0);
      NoLifetimeGrantsAll(r, None, c + 1);
    } else {
      window := Burst(c, 0) + Burst(c, r.ttlMs);
      ExpiryGrantsTwice(r, c);
    }
  }

  ghost predicate KeepsWindowBound(r: Rate, before: seq<int>, window: seq<int>)
    requires 0.0 < r.perSec && window != []
  {
    Grants(r, After(r, None, before), window) as real
      <= r.capacity + Earned(r, window[|window| - 1] - window[0])
  }

  /**
   * For a whole-number capacity the window bound holds of every run if and only if one
   * TTL refills a bucket.
   */
  lemma WindowBoundIffRefills(r: Rate, c: nat)
    requires Usable(r) && r.capacity == c as real
    ensures Refills(r) <==>
      forall before, window :: window != [] && Nondecreasing(window) ==> KeepsWindowBound(r, before, window)
  {
    if Refills(r) {
      forall before, window | window != [] && Nondecreasing(window) ensures KeepsWindowBound(r, before, window) {
        WindowBound(r, before, window);
      }
    } else {
      var window := UnrefilledBreaksBound(r, c);
      assert !KeepsWindowBound(r, [], window);
    }
  }

  // ----- refused polls -----

  /** Times that go one way: on, or back. */
  predicate OneWay(a: int, b: int, c: int) {
    a <= b <= c || c <= b <= a
  }

  /**
   * When a refused poll at `poll` does not matter to a call at `later`: the key would be
   * gone either way, or the bucket would be full without the poll, or the key lives
   * either way and the clock did not turn round.
   */
  predicate PollIsHarmless(r: Rate, b: Bucket, poll: int, later: int) {
    || Max(b.ts, poll) + r.ttlMs <= later
    || r.capacity <= b.tokens + Earned(r, Max(0, later - b.ts))
    || (later < b.ts + r.ttlMs && later < poll + r.ttlMs && OneWay(b.ts, poll, later))
  }

  /** A refused poll only stamps the bucket: what it earned so far is below one token. */
  lemma RefusedPollStamps(r: Rate, b: Option<Bucket>, poll: int)
    requires Usable(r) && Valid(r, b) && !Granted(r, b, poll)
    ensures b.Some? && poll < b.value.ts + r.ttlMs
    ensures var tokens := b.value.tokens + Earned(r, Max(0, poll - b.value.ts));
      tokens < 1.0 && ConsumeStep(r, b, poll).0 == Bucket(tokens, poll, poll + r.ttlMs)
  {
    ZeroMeansGranted(r, b, poll);
  }

  lemma SameStepIff(r: Rate, b: Option<Bucket>, c: Option<Bucket>, now: int)
    requires 0.0 < r.perSec
    ensures ConsumeStep(r, b, now) == ConsumeStep(r, c, now) <==> OnHand(r, b, now) == OnHand(r, c, now)
  {
    ZeroMeansGranted(r, b, now);
    ZeroMeansGranted(r, c, now);
  }

  lemma EarnedMore(r: Rate, a: int, b: int)
    requires 0.0 < r.perSec && a < b
    ensures Earned(r, a) < Earned(r, b)
  {
    EarnedAdds(r, a, b - a);
    StrictProduct((b - a) as real / 1000.0, r.perSec);
  }

  /** What the two buckets earn up to `later`, by the order of the three times. */
  lemma EarnedAround(r: Rate, ts: int, poll: int, later: int)
    requires 0.0 < r.perSec
    ensures var with := Earned(r, Max(0, poll - ts)) + Earned(r, Max(0, later - poll));
      var without := Earned(r, Max(0, later - ts));
      && 0.0 <= without <= with
      && (OneWay(ts, poll, later) <==> with == without)
      && (later < poll ==> with == Earned(r, Max(0, poll - ts)))
  {
    assert Earned(r, 0) == 0.0;
    EarnedGrows(r, 0, Max(0, later - ts));
    if ts <= poll <= later {
      EarnedAdds(r, poll - ts, later - poll);
    } else if ts < poll {
      EarnedMore(r, Max(0, later - ts), poll - ts);
    } else if poll < later {
      EarnedMore(r, Max(0, later - ts), later - poll);
    }
  }

  /**
   * A refused poll leaves a later call's answer and bucket as they were exactly when
   * PollIsHarmless says so, whatever way the clock goes.
   */
  lemma DeniedPollIff(r: Rate, b: Option<Bucket>, poll: int, later: int)
    requires Usable(r) && Valid(r, b) && !Granted(r, b, poll)
    ensures b.Some?
    ensures ConsumeStep(r, Some(ConsumeStep(r, b, poll).0), later) == ConsumeStep(r, b, later)
      <==> PollIsHarmless(r, b.value, poll, later)
  {
    RefusedPollStamps(r, b, poll);
    SameStepIff(r, Some(ConsumeStep(r, b, poll).0), b, later);
    EarnedAround(r, b.value.ts, poll, later);
  }

  /** With a clock that moves on: unless the key would have expired by then and the poll has kept it. */
  lemma DeniedPollChangesNothing(r: Rate, b: Option<Bucket>, poll: int, later: int)
    requires Usable(r) && Valid(r, b) && !Granted(r, b, poll)
    requires (b.Some? ==> b.value.ts <= poll) && poll <= later
    ensures b.Some?
    ensures ConsumeStep(r, Some(ConsumeStep(r, b, poll).0), later) == ConsumeStep(r, b, later)
      <==> (b.value.ts + r.ttlMs <= later < poll + r.ttlMs ==>
              r.capacity <= b.value.tokens + Earned(r, later - b.value.ts))
    ensures Refills(r) || later < b.value.ts + r.ttlMs ==>
      ConsumeStep(r, Some(ConsumeStep(r, b, poll).0), later) == ConsumeStep(r, b, later)
  {
    DeniedPollIff(r, b, poll, later);
    if b.value.ts + r.ttlMs <= later { EarnedGrows(r, r.ttlMs, later - b.value.ts); }
  }

  /** The poll at 100 keeps a key alive that was to expire at 600: the call at 650 is refused because of it. */
  lemma PollCanCostAGrant()
    ensures var r, b := Rate(2.0, 1.0, 600), Some(Bucket(0.0, 0, 600));
      && Usable(r) && Valid(r, b) && !Granted(r, b, 100)
      && Granted(r, b, 650) && !Granted(r, Some(ConsumeStep(r, b, 100).0), 650)
  {
    var r, b := Rate(2.0, 1.0, 600), Some(Bucket(0.0, 0, 600));
    assert OnHand(r, b, 100) == 0.1;
    assert !Granted(r, b, 100) by { ZeroMeansGranted(r, b, 100); }
    var polled := Some(ConsumeStep(r, b, 100).0);
    assert OnHand(r, polled, 650) == 0.65;
    assert !Granted(r, polled, 650) by { ZeroMeansGranted(r, polled, 650); }
  }

  /** A full bucket drained in one instant. */
  lemma {:induction false} BurstDrains(r: Rate, b: Bucket, n: nat)
    requires Usable(r) && 0 < r.ttlMs && Valid(r, Some(b)) && b.tokens == n as real
    ensures After(r, Some(b), Burst(n, b.ts)) == Some(b.(tokens := 0.0))
    decreases n
  {
    if n != 0 {
      assert Burst(n, b.ts)[0] == b.ts && Burst(n, b.ts)[1..] == Burst(n - 1, b.ts);
      assert Earned(r, 0) == 0.0;
      assert ConsumeStep(r, Some(b), b.ts).0 == b.(tokens := (n - 1) as real);
      BurstDrains(r, b.(tokens := (n - 1) as real), n - 1);
    }
  }

  lemma FullBurstDrains(r: Rate, c: nat)
    requires Usable(r) && 0 < r.ttlMs && r.capacity == c as real
    ensures After(r, None, Burst(c, 0)) == Some(Bucket(0.0, 0, r.ttlMs))
  {
    assert Burst(c, 0)[0] == 0 && Burst(c, 0)[1..] == Burst(c - 1, 0);
    assert ConsumeStep(r, None, 0).0 == Bucket((c - 1) as real, 0, r.ttlMs);
    BurstDrains(r, Bucket((c - 1) as real, 0, r.ttlMs), c - 1);
  }

  /** In a run of the limiter, this poll is refused and the later call does not notice. */
  ghost predicate PollUnnoticed(r: Rate, before: seq<int>, poll: int, later: int)
    requires 0.0 < r.perSec
  {
    var b := After(r, None, before);
    Granted(r, b, poll) || ConsumeStep(r, Some(ConsumeStep(r, b, poll).0), later) == ConsumeStep(r, b, later)
  }

  /** One millisecond earns a token, or the key does not outlive one: no poll moves a living key's stamp in vain. */
  predicate PollsComeTooLate(r: Rate) {
    r.ttlMs <= 1 || 1.0 <= Earned(r, 1)
  }

  /**
   * For a whole-number capacity no refused poll of any run is ever noticed if and only if
   * one TTL refills a bucket, but for lifetimes and rates at the resolution of the clock.
   */
  lemma PollsUnnoticedIff(r: Rate, c: nat)
    requires Usable(r) && r.capacity == c as real
    ensures Refills(r) || PollsComeTooLate(r) <==>
      forall before, poll, later :: Nondecreasing(before + [poll, later]) ==> PollUnnoticed(r, before, poll, later)
  {
    if Refills(r) || PollsComeTooLate(r) {
      forall before, poll, later | Nondecreasing(before + [poll, later]) ensures PollUnnoticed(r, before, poll, later) {
        RunPollUnnoticed(r, before, poll, later);
      }
    } else {
      var before, b := Burst(c, 0), Bucket(0.0, 0, r.ttlMs);
      FullBurstDrains(r, c);
      assert OnHand(r, Some(b), 1) < 1.0;
      DeniedPollChangesNothing(r, Some(b), 1, r.ttlMs);
      assert Nondecreasing(before + [1, r.ttlMs]) && !PollUnnoticed(r, before, 1, r.ttlMs);
    }
  }

  lemma {:induction false} AfterIsStamped(r: Rate, b: Option<Bucket>, times: seq<int>, later: int)
    requires 0.0 < r.perSec && Nondecreasing(times + [later]) && (b.Some? ==> b.value.ts <= (times + [later])[0])
    ensures var b' := After(r, b, times); b'.Some? ==> b'.value.ts <= later
    decreases times
  {
    if times != [] {
      assert (times + [later])[1..] == times[1..] + [later];
      assert (times + [later])[0] <= (times + [later])[1];
      assert forall i :: 0 <= i < |times| ==> (times[1..] + [later])[i] == (times + [later])[i + 1];
      AfterIsStamped(r, Some(ConsumeStep(r, b, times[0]).0), times[1..], later);
    }
  }

  lemma RunPollUnnoticed(r: Rate, before: seq<int>, poll: int, later: int)
    requires Usable(r) && (Refills(r) || PollsComeTooLate(r)) && Nondecreasing(before + [poll, later])
    ensures PollUnnoticed(r, before, poll, later)
  {
    var b, times := After(r, None, before), before + [poll, later];
    AfterKeepsValid(r, None, before);
    assert times[|before|] == poll && times[|before| + 1] == later;
    assert forall i :: 0 <= i <= |before| ==> (before + [poll])[i] == times[i];
    AfterIsStamped(r, None, before, poll);
    if !Granted(r, b, poll) {
      RefusedPollStamps(r, b, poll);
      DeniedPollChangesNothing(r, b, poll, later);
      if b.value.ts < poll { EarnedGrows(r, 1, poll - b.value.ts); }
    }
  }

  // ----- a run without its refused polls -----

  /** The calls of a run that were granted. */
  function GrantedTimes(r: Rate, b: Option<Bucket>, times: seq<int>): seq<int>
    requires 0.0 < r.perSec
    decreases times
  {
    if times == [] then []
    else
      (if Granted(r, b, times[0]) then [times[0]] else [])
      + GrantedTimes(r, Some(ConsumeStep(r, b, times[0]).0), times[1..])
  }

  /** `c` was stamped no later than `b` and had at least as much on hand when `b` was. */
  predicate Ahead(r: Rate, c: Option<Bucket>, b: Option<Bucket>) {
    && (b.Some? ==> b.value.tokens <= OnHand(r, c, b.value.ts) && (c.Some? ==> c.value.ts <= b.value.ts))
    && (b.None? ==> c.None?)
  }

  /** It stays ahead: fewer stamps never make for fewer tokens. */
  lemma AheadHasMore(r: Rate, c: Option<Bucket>, b: Option<Bucket>, now: int)
    requires Usable(r) && Valid(r, c) && Valid(r, b) && Ahead(r, c, b) && (b.Some? ==> b.value.ts <= now)
    ensures OnHand(r, b, now) <= OnHand(r, c, now)
  {
    OnHandBounds(r, b, now);
    if c.Some? && b.Some? { EarnedAdds(r, b.value.ts - c.value.ts, now - b.value.ts); }
  }

  lemma GrantKeepsAhead(r: Rate, c: Option<Bucket>, b: Option<Bucket>, now: int)
    requires Usable(r) && Valid(r, c) && Valid(r, b) && Ahead(r, c, b) && (b.Some? ==> b.value.ts <= now)
    requires Granted(r, b, now)
    ensures Granted(r, c, now)
    ensures Ahead(r, Some(ConsumeStep(r, c, now).0), Some(ConsumeStep(r, b, now).0))
  {
    AheadHasMore(r, c, b, now);
    OnHandBounds(r, c, now);
    ZeroMeansGranted(r, b, now);
    ZeroMeansGranted(r, c, now);
    assert Earned(r, 0) == 0.0;
  }

  lemma RefusalKeepsAhead(r: Rate, c: Option<Bucket>, b: Option<Bucket>, now: int)
    requires Usable(r) && Valid(r, c) && Valid(r, b) && Ahead(r, c, b) && (b.Some? ==> b.value.ts <= now)
    requires !Granted(r, b, now)
    ensures Ahead(r, c, Some(ConsumeStep(r, b, now).0))
  {
    AheadHasMore(r, c, b, now);
    RefusedPollStamps(r, b, now);
  }

  lemma {:induction false} GrantedStayGranted(r: Rate, c: Option<Bucket>, b: Option<Bucket>, times: seq<int>)
    requires Usable(r) && Valid(r, c) && Valid(r, b) && Ahead(r, c, b)
    requires Nondecreasing(times) && (b.Some? && times != [] ==> b.value.ts <= times[0])
    ensures var granted := GrantedTimes(r, b, times);
      Grants(r, c, granted) == |granted| == Grants(r, b, times)
    decreases times
  {
    if times != [] {
      var b' := ConsumeStep(r, b, times[0]).0;
      var rest := GrantedTimes(r, Some(b'), times[1..]);
      StepKeepsValid(r, b, times[0]);
      if Granted(r, b, times[0]) {
        GrantKeepsAhead(r, c, b, times[0]);
        StepKeepsValid(r, c, times[0]);
        GrantedStayGranted(r, Some(ConsumeStep(r, c, times[0]).0), Some(b'), times[1..]);
        assert ([times[0]] + rest)[1..] == rest;
      } else {
        RefusalKeepsAhead(r, c, b, times[0]);
        GrantedStayGranted(r, c, Some(b'), times[1..]);
        assert [] + rest == rest;
      }
    }
  }

  /** Taking every refused poll out of a run leaves the grants: each is still granted, at any rate and lifetime. */
  lemma RefusalsLeaveNoTrace(r: Rate, b: Option<Bucket>, times: seq<int>)
    requires Usable(r) && Valid(r, b)
    requires Nondecreasing(times) && (b.Some? && times != [] ==> b.value.ts <= times[0])
    ensures var granted := GrantedTimes(r, b, times);
      Grants(r, b, granted) == |granted| == Grants(r, b, times)
  {
    assert Earned(r, 0) == 0.0;
    GrantedStayGranted(r, b, b, times);
  }

  // ----- the client -----

  /** The hashes of all hosts. */
  type Hashes = map<string, Bucket>

  function Find(m: Hashes, host: string): Option<Bucket> {
    if host in m then Some(m[host]) else None
  }

  ghost predicate AllValid(r: Rate, m: Hashes) {
    forall h :: h in m ==> Valid(r, Some(m[h]))
  }

  /** The others run the same script, on the call's own host too. */
  ghost predicate Sound(r: Rate, w: Outside<Hashes>) {
    forall n, now, m :: AllValid(r, m) ==> AllValid(r, w.act(n, now, m))
  }

  /** The script on the hashes: the host's bucket steps. */
  function ScriptOn(r: Rate, host: string, now: int, m: Hashes): (Hashes, int)
    requires 0.0 < r.perSec
  {
    var (b, wait) := ConsumeStep(r, Find(m, host), now);
    (m[host := b], wait)
  }

  /** A refused call sleeps for the wait it was told, unless that would pass the deadline. */
  function Waiting(r: Rate, host: string, deadline: int): Loop<Hashes>
    requires 0.0 < r.perSec
  {
    Loop((k, now, m) => ScriptOn(r, host, now, m),
         (wait, at) => 0 < wait && at + wait <= deadline,
         wait => if wait < 0 then 0 else wait)
  }

  /** The loop, read out. */
  lemma WaitingMeans(r: Rate, host: string, deadline: int, w: Outside<Hashes>, k: nat, t: Turn<Hashes>)
    requires 0.0 < r.perSec && 0 <= t.answer
    ensures var loop := Waiting(r, host, deadline);
      && (RunsScript(loop, k, t) <==> ScriptOn(r, host, t.asked, t.found) == (t.left, t.answer))
      && (GoesOn(loop, w, k, t) <==> 0 < t.answer && Replied(w, k, t) + t.answer <= deadline)
      && Woken(loop, w, k, t) == Replied(w, k, t) + t.answer + w.lasts(3 * k + 2)
      && Rested(loop, w, k, t) == w.act(3 * k + 2, Woken(loop, w, k, t), Settled(w, k, t))
  {
  }

  /** What the last refusal of a call that gives up means. */
  ghost predicate Refuses(r: Rate, host: string, t: Turn<Hashes>, testedAt: int, deadline: int)
    requires 0.0 < r.perSec && host in t.left
  {
    && (forall at :: t.asked <= at < t.asked + t.answer && at < t.asked + r.ttlMs ==>
          !Granted(r, Some(t.left[host]), at))
    && var call := Call(t.asked, t.left[host], t.answer);
       RetryInTime(r, call, testedAt, deadline) <==> WastesARetry(r, call, testedAt, deadline)
  }

  lemma RefusalRefuses(r: Rate, host: string, t: Turn<Hashes>, testedAt: int, deadline: int)
    requires Usable(r) && ScriptOn(r, host, t.asked, t.found) == (t.left, t.answer) && AllValid(r, t.found)
    requires t.answer != 0 && t.asked <= testedAt
    ensures host in t.left && Refuses(r, host, t, testedAt, deadline)
  {
    var b, call := Find(t.found, host), Call(t.asked, t.left[host], t.answer);
    assert Called(r, b, call);
    RefusedUntil(r, b, call);
    RetryInTimeIff(r, b, call, testedAt, deadline);
  }

  // ----- what a call does to the hashes, in the words of the script -----

  /** What a script finds on hand. */
  function Tokens(r: Rate, b: Option<Bucket>, now: int): real {
    if b.None? || b.value.expireAt <= now then r.capacity
    else
      var elapsed := if now < b.value.ts then 0 else now - b.value.ts;
      var tokens := b.value.tokens + (elapsed as real / 1000.0) * r.perSec;
      if r.capacity <= tokens then r.capacity else tokens
  }

  /** Enough on hand for a grant `d` milliseconds later. */
  predicate WholeAfter(r: Rate, tokens: real, d: nat) {
    1.0 <= tokens + (d as real / 1000.0) * r.perSec
  }

  /**
   * Every try works on its own host's bucket as it finds it, takes one token if there is
   * a whole one and none otherwise, renews the key, leaves the other hosts alone, and
   * answers 0 or the least wait that earns what is missing.
   */
  lemma TryInPlainTerms(r: Rate, host: string, now: int, m: Hashes)
    requires Usable(r)
    ensures var (m', wait) := ScriptOn(r, host, now, m);
      var tokens := Tokens(r, Find(m, host), now);
      && m' == m[host := Bucket(if 1.0 <= tokens then tokens - 1.0 else tokens, now, now + r.ttlMs)]
      && (wait == 0 <==> 1.0 <= tokens) && 0 <= wait
      && (wait != 0 ==> forall d: nat :: WholeAfter(r, tokens, d) <==> wait <= d)
  {
    var b := Find(m, host);
    var tokens := Tokens(r, b, now);
    assert tokens == OnHand(r, b, now);
    ZeroMeansGranted(r, b, now);
    var wait := ScriptOn(r, host, now, m).1;
    if wait != 0 {
      forall d: nat ensures WholeAfter(r, tokens, d) <==> wait <= d {
        WaitEarnsMissing(r, 1.0 - tokens, d);
      }
    }
  }

  /**
   * A call is granted if and only if its last script found a whole token in the host's own
   * bucket; that script took it, and no other try took any.
   */
  lemma GrantTakesOneToken(r: Rate, host: string, w: Outside<Hashes>, now: int, m: Hashes, deadline: int,
                           turns: seq<Turn<Hashes>>, later: int, m': Hashes, k: nat)
    requires Usable(r) && Polls(Waiting(r, host, deadline), w, now, m, turns, later, m') && k < |turns|
    ensures var granted := turns[|turns| - 1].answer == 0;
      var tokens := Tokens(r, Find(turns[k].found, host), turns[k].asked);
      && (1.0 <= tokens <==> granted && k == |turns| - 1)
      && turns[k].left == turns[k].found[host :=
           Bucket(if 1.0 <= tokens then tokens - 1.0 else tokens, turns[k].asked, turns[k].asked + r.ttlMs)]
  {
    TryInPlainTerms(r, host, turns[k].asked, turns[k].found);
    assert RunsScript(Waiting(r, host, deadline), k, turns[k]);
    if k < |turns| - 1 { assert GoesOn(Waiting(r, host, deadline), w, k, turns[k]); }
  }

  /**
   * A call nobody disturbs before its script runs is granted at once if and only if a
   * whole token is on hand at entry, and takes exactly that token.
   */
  lemma UndisturbedCall(r: Rate, host: string, w: Outside<Hashes>, now: int, m: Hashes, deadline: int,
                        turns: seq<Turn<Hashes>>, later: int, m': Hashes)
    requires Usable(r) && Polls(Waiting(r, host, deadline), w, now, m, turns, later, m')
    requires w.lasts(0) == 0 && w.act(0, now, m) == m
    ensures var tokens := Tokens(r, Find(m, host), now);
      && (turns[|turns| - 1].answer == 0 && |turns| == 1 <==> 1.0 <= tokens)
      && (1.0 <= tokens ==> turns[0].left == m[host := Bucket(tokens - 1.0, now, now + r.ttlMs)])
  {
    GrantTakesOneToken(r, host, w, now, m, deadline, turns, later, m', 0);
    assert Begins(w, 0, now, m, turns[0]);
  }

  /** The Redis hashes, one per host. */
  class BucketStore {
    var buckets: Hashes

    constructor ()
      ensures buckets == map[]
    {
      buckets := map[];
    }
  }

  class DomainRateLimiter {
    const store: BucketStore
    const rate: Rate

    constructor (store: BucketStore, rate: Rate)
      ensures this.store == store && this.rate == rate
    {
      this.store, this.rate := store, rate;
    }

    /** One script call: the host's bucket steps, no other host is touched. */
    method TryConsume(host: string, now: int) returns (wait: int)
      requires 0.0 < rate.perSec
      modifies store
      ensures (store.buckets, wait) == ScriptOn(rate, host, now, old(store.buckets))
    {
      var tokens, ts := rate.capacity, now;
      if host in store.buckets && now < store.buckets[host].expireAt {
        tokens, ts := store.buckets[host].tokens, store.buckets[host].ts;
      }
      var elapsed := now - ts;
      if elapsed < 0 { elapsed := 0; }
      tokens := Min(rate.capacity, tokens + Earned(rate, elapsed));
      wait := 0;
      if 1.0 <= tokens {
        tokens := tokens - 1.0;
      } else {
        wait := Ceil((1.0 - tokens) / rate.perSec * 1000.0);
      }
      store.buckets := store.buckets[host := Bucket(tokens, now, now + rate.ttlMs)];
    }

    /** The n-th await: time passes and others use the hashes, both as the surroundings say. */
    method Interference(clock: Clock, ms: nat, w: Outside<Hashes>, n: nat)
      modifies store, clock
      ensures clock.now == old(clock.now) + ms + w.lasts(n)
      ensures store.buckets == w.act(n, clock.now, old(store.buckets))
    {
      clock.Advance(ms + w.lasts(n));
      store.buckets := w.act(n, clock.now, store.buckets);
    }

    /** A try: the script between its two awaits. */
    method Try(host: string, clock: Clock, w: Outside<Hashes>, k: nat) returns (wait: int, ghost t: Turn<Hashes>)
      requires Usable(rate) && AllValid(rate, store.buckets) && Sound(rate, w)
      modifies store, clock
      ensures Begins(w, k, old(clock.now), old(store.buckets), t)
      ensures ScriptOn(rate, host, t.asked, t.found) == (t.left, t.answer) && wait == t.answer && 0 <= wait
      ensures clock.now == Replied(w, k, t) && store.buckets == Settled(w, k, t)
      ensures AllValid(rate, t.found) && AllValid(rate, store.buckets)
    {
      Interference(clock, 0, w, 3 * k);
      ghost var asked, found := clock.now, store.buckets;
      wait := TryConsume(host, clock.now);
      t := Turn(asked, found, store.buckets, wait);
      StepKeepsValid(rate, Find(found, host), asked);
      ZeroMeansGranted(rate, Find(found, host), asked);
      Interference(clock, 0, w, 3 * k + 1);
    }

    /** The sleep after try `k`. */
    method Rest(host: string, clock: Clock, w: Outside<Hashes>, k: nat, deadline: int, wait: int,
                ghost t: Turn<Hashes>)
      requires clock.now == Replied(w, k, t) && store.buckets == Settled(w, k, t) && 0 < wait == t.answer
      requires Usable(rate) && AllValid(rate, store.buckets) && Sound(rate, w)
      modifies store, clock
      ensures var loop := Waiting(rate, host, deadline);
        clock.now == Woken(loop, w, k, t) && store.buckets == Rested(loop, w, k, t)
      ensures clock.now >= old(clock.now) + wait && AllValid(rate, store.buckets)
    {
      Interference(clock, wait, w, 3 * k + 2);
    }

    /** One round of the loop: a try, and then the end or a sleep. */
    method Round(host: string, clock: Clock, deadline: int, w: Outside<Hashes>, k: nat,
                 ghost start: int, ghost before: Hashes, ghost turns: seq<Turn<Hashes>>)
      returns (granted: bool, again: bool, ghost turns': seq<Turn<Hashes>>)
      requires Usable(rate) && AllValid(rate, store.buckets) && Sound(rate, w) && k == |turns|
      requires Awake(Waiting(rate, host, deadline), w, start, before, turns, clock.now, store.buckets)
      modifies store, clock
      ensures AllValid(rate, store.buckets) && old(clock.now) <= clock.now && |turns'| == k + 1
      ensures again ==> old(clock.now) < clock.now && old(clock.now) < deadline
      ensures again ==> Awake(Waiting(rate, host, deadline), w, start, before, turns', clock.now, store.buckets)
      ensures !again ==> Polls(Waiting(rate, host, deadline), w, start, before, turns', clock.now, store.buckets)
      ensures !again ==> granted == (turns'[k].answer == 0)
      ensures !again && !granted ==> host in turns'[k].left && Refuses(rate, host, turns'[k], clock.now, deadline)
    {
      ghost var now, found := clock.now, store.buckets;
      var wait;
      ghost var t;
      wait, t := Try(host, clock, w, k);
      WaitingMeans(rate, host, deadline, w, k, t);
      OneMoreTurn(Waiting(rate, host, deadline), w, start, before, turns, now, found, t);
      turns' := turns + [t];
      granted := wait <= 0;
      again := !granted && clock.now + wait <= deadline;
      if again {
        Rest(host, clock, w, k, deadline, wait, t);
      } else if !granted {
        RefusalRefuses(rate, host, t, clock.now, deadline);
      }
    }

    /**
     * Wait for a token, against any surroundings. It ends: every refusal either sleeps,
     * which brings the clock nearer the deadline, or gives up. A refusal says until when
     * no uncontended retry is granted, and exactly when a grantable one was thrown away.
     */
    method Consume(host: string, clock: Clock, maxWaitMs: nat, w: Outside<Hashes>)
      returns (granted: bool, ghost turns: seq<Turn<Hashes>>)
      requires Usable(rate) && AllValid(rate, store.buckets) && Sound(rate, w)
      modifies store, clock
      ensures Polls(Waiting(rate, host, old(clock.now) + maxWaitMs), w, old(clock.now), old(store.buckets),
                    turns, clock.now, store.buckets)
      ensures granted == (turns[|turns| - 1].answer == 0)
      ensures AllValid(rate, store.buckets) && old(clock.now) <= clock.now
      ensures !granted ==> var t := turns[|turns| - 1];
        host in t.left && Refuses(rate, host, t, clock.now, old(clock.now) + maxWaitMs)
    {
      ghost var start, before := clock.now, store.buckets;
      var deadline, k, again := clock.now + maxWaitMs, 0, true;
      turns, granted := [], false;
      while again
        invariant k == |turns| && AllValid(rate, store.buckets) && start <= clock.now
        invariant again ==> Awake(Waiting(rate, host, deadline), w, start, before, turns, clock.now, store.buckets)
        invariant !again ==> Polls(Waiting(rate, host, deadline), w, start, before, turns, clock.now, store.buckets)
        invariant !again ==> granted == (turns[k - 1].answer == 0)
        invariant !again && !granted ==>
          host in turns[k - 1].left && Refuses(rate, host, turns[k - 1], clock.now, deadline)
        decreases again, deadline - clock.now
      {
        granted, again, turns := Round(host, clock, deadline, w, k, start, before, turns);
        k := k + 1;
      }
    }
  }
}
