/** The token-bucket rule that the rate limiters run as one server-side
    script: a bucket holds `tokens` and the time `lastRefill` of its last
    admitted call; each call lazily credits one token per whole refill
    interval since then, caps at the maximum, and either spends a token and
    writes the bucket back or denies without writing. This module is the rule
    as a function of the stored bucket; the store runs it step by step. */
module TokenBucket {
  import opened Common

  /** A stored bucket: remaining tokens, time of the last admitted call, and
      the expiry (in seconds) set with it. */
  datatype Bucket = Bucket(tokens: int, lastRefill: int, expiresIn: int)

  /** The outcome of one call: admitted or not, and the bucket afterwards. */
  datatype Decision = Decision(allowed: bool, after: Option<Bucket>)

  function Min(a: int, b: int): (m: int)
    ensures m <= a && m <= b && (m == a || m == b)
  {
    if a <= b then a else b
  }

  function Max(a: int, b: int): (m: int)
    ensures m >= a && m >= b && (m == a || m == b)
  {
    if a >= b then a else b
  }

  /** Tokens after lazily crediting whole intervals since `lastRefill`,
      capped at `maxTokens`. A clock that went backwards credits nothing. */
  function Refilled(tokens: int, lastRefill: int, maxTokens: int, refillTime: int, now: int): (t: int)
    requires refillTime >= 1
    ensures t <= maxTokens
    ensures t == maxTokens || t >= tokens
  {
    Min(maxTokens, tokens + Max(0, now - lastRefill) / refillTime)
  }

  /** Tokens available to a call at `now`: an absent bucket reads as full,
      with a last refill at time 0. */
  function Available(b: Option<Bucket>, maxTokens: int, refillTime: int, now: int): (t: int)
    requires refillTime >= 1
    ensures t <= maxTokens
    ensures b.None? ==> t == maxTokens
    ensures b.Some? ==> t == maxTokens || t >= b.value.tokens
    ensures b.Some? && now <= b.value.lastRefill ==> t == Min(maxTokens, b.value.tokens)
  {
    match b
    case None => Refilled(maxTokens, 0, maxTokens, refillTime, now)
    case Some(bucket) => Refilled(bucket.tokens, bucket.lastRefill, maxTokens, refillTime, now)
  }

  /** One call of the rule on the bucket stored under one scope key. */
  function Step(b: Option<Bucket>, maxTokens: int, refillTime: int, now: int): (d: Decision)
    requires refillTime >= 1
    ensures d.allowed <==> Available(b, maxTokens, refillTime, now) > 0
    ensures !d.allowed ==> d.after == b
    ensures d.allowed ==> d.after.Some? && d.after.value.lastRefill == now
                          && d.after.value.expiresIn == 2 * refillTime
                          && d.after.value.tokens < maxTokens
    ensures d.allowed ==> d.after == Some(Bucket(Available(b, maxTokens, refillTime, now) - 1, now, 2 * refillTime))
  {
    var tokens := Available(b, maxTokens, refillTime, now);
    if tokens > 0 then Decision(true, Some(Bucket(tokens - 1, now, refillTime * 2)))
    else Decision(false, b)
  }

  /** The admit/deny answers of consecutive calls at the given times. */
  function Outcomes(b: Option<Bucket>, maxTokens: int, refillTime: int, times: seq<int>): (r: seq<bool>)
    requires refillTime >= 1
    ensures |r| == |times|
    decreases |times|
  {
    if times == [] then []
    else
      var d := Step(b, maxTokens, refillTime, times[0]);
      [d.allowed] + Outcomes(d.after, maxTokens, refillTime, times[1..])
  }

  function Repeat<T>(x: T, n: nat): (r: seq<T>)
    ensures |r| == n && forall i :: 0 <= i < n ==> r[i] == x
  {
    if n == 0 then [] else [x] + Repeat(x, n - 1)
  }

  /** Bucket whose token count lies in [0, maxTokens]. */
  predicate InBounds(b: Option<Bucket>, maxTokens: int) {
    b.Some? ==> 0 <= b.value.tokens <= maxTokens
  }

  // ------------------------------------------------------------------ lemmas

  /** An absent bucket offers exactly `maxTokens`, whatever the clock says. */
  lemma AbsentBucketIsFull(maxTokens: int, refillTime: int, now: int)
    requires refillTime >= 1
    ensures Available(None, maxTokens, refillTime, now) == maxTokens
  {
  }

  /** After k whole intervals (and less than one more) the call sees
      min(maxTokens, tokens + k). */
  lemma RefillAfterIntervals(tokens: int, lastRefill: int, maxTokens: int, refillTime: int, k: nat, extra: nat)
    requires refillTime >= 1 && extra < refillTime
    ensures Refilled(tokens, lastRefill, maxTokens, refillTime, lastRefill + k * refillTime + extra)
            == Min(maxTokens, tokens + k)
  {
    var delta := k * refillTime + extra;
    assert Max(0, delta) == delta;
    DivOfMultiplePlusRest(k, refillTime, extra);
  }

  lemma DivOfMultiplePlusRest(k: nat, d: int, extra: nat)
    requires d >= 1 && extra < d
    ensures (k * d + extra) / d == k
  {
    var q, r := (k * d + extra) / d, (k * d + extra) % d;
    assert q * d + r == k * d + extra;
    assert (q - k) * d == extra - r;
    if q > k {
      MulAtLeast(q - k, d);
      assert false;
    } else if q < k {
      MulAtLeast(k - q, d);
      assert false;
    }
  }

  lemma MulAtLeast(a: int, d: int)
    requires a >= 1 && d >= 1
    ensures a * d >= d
  {
  }

  /** A clock that has not moved past `lastRefill` credits nothing. */
  lemma NoCreditWithoutElapsedTime(tokens: int, lastRefill: int, maxTokens: int, refillTime: int, now: int)
    requires refillTime >= 1 && now <= lastRefill
    ensures Refilled(tokens, lastRefill, maxTokens, refillTime, now) == Min(maxTokens, tokens)
  {
  }

  /** Every call keeps the stored count in [0, maxTokens]; an admitted call
      leaves at most maxTokens - 1. */
  lemma StepKeepsBounds(b: Option<Bucket>, maxTokens: int, refillTime: int, now: int)
    requires refillTime >= 1 && InBounds(b, maxTokens)
    ensures InBounds(Step(b, maxTokens, refillTime, now).after, maxTokens)
    ensures Step(b, maxTokens, refillTime, now).allowed ==>
              0 <= Step(b, maxTokens, refillTime, now).after.value.tokens <= maxTokens - 1
  {
  }

  /** The last refill time moves forward, as long as the clock does. */
  lemma LastRefillMonotone(b: Bucket, maxTokens: int, refillTime: int, now: int)
    requires refillTime >= 1 && now >= b.lastRefill
    ensures Step(Some(b), maxTokens, refillTime, now).after.value.lastRefill >= b.lastRefill
  {
  }

  /** An admitted call at a time before the last refill moves the last
      refill time back: the rule trusts the caller's clock. */
  lemma ClockSkewRewindsLastRefill()
    ensures Step(Some(Bucket(1, 10, 2)), 3, 1, 5) == Decision(true, Some(Bucket(0, 5, 2)))
  {
  }

  /** A bucket holding k tokens, all of whose calls come at times no earlier
      than `start` and less than one interval after it, admits exactly k
      calls and denies the next. */
  lemma {:induction false} DrainWithinInterval(k: int, lastRefill: int, expiresIn: int, maxTokens: int, refillTime: int, start: int, times: seq<int>)
    requires refillTime >= 1 && 0 <= k <= maxTokens && start <= lastRefill
    requires |times| == k + 1
    requires forall i :: 0 <= i < |times| ==> start <= times[i] < start + refillTime
    ensures Outcomes(Some(Bucket(k, lastRefill, expiresIn)), maxTokens, refillTime, times) == Repeat(true, k) + [false]
  {
    var b := Some(Bucket(k, lastRefill, expiresIn));
    var d := Step(b, maxTokens, refillTime, times[0]);
    assert Max(0, times[0] - lastRefill) / refillTime == 0;
    if k == 0 {
      assert !d.allowed;
    } else {
      assert d.allowed && d.after == Some(Bucket(k - 1, times[0], refillTime * 2));
      DrainWithinInterval(k - 1, times[0], refillTime * 2, maxTokens, refillTime, start, times[1..]);
      assert Repeat(true, k) == [true] + Repeat(true, k - 1);
    }
  }

  /** A fresh scope admits maxTokens calls within one refill interval of its
      first call, and denies the one after. */
  lemma FreshBucketBurst(maxTokens: nat, refillTime: int, times: seq<int>)
    requires refillTime >= 1
    requires |times| == maxTokens + 1
    requires forall i :: 0 <= i < |times| ==> times[0] <= times[i] < times[0] + refillTime
    ensures Outcomes(None, maxTokens, refillTime, times) == Repeat(true, maxTokens) + [false]
  {
    if maxTokens > 0 {
      var d := Step(None, maxTokens, refillTime, times[0]);
      assert d.allowed && d.after == Some(Bucket(maxTokens - 1, times[0], refillTime * 2));
      DrainWithinInterval(maxTokens - 1, times[0], refillTime * 2, maxTokens, refillTime, times[0], times[1..]);
      assert Repeat(true, maxTokens) == [true] + Repeat(true, maxTokens - 1);
    }
  }

  /** The limiters' own parameters, three tokens refilled one per second: a
      fresh scope admits three calls at t0, denies a fourth at t0 and admits
      one more at t0 + 1. */
  lemma WiredScenario(t0: int)
    ensures Outcomes(None, 3, 1, [t0, t0, t0, t0, t0 + 1]) == [true, true, true, false, true]
  {
    var s1 := Some(Bucket(2, t0, 2));
    var s2 := Some(Bucket(1, t0, 2));
    var s3 := Some(Bucket(0, t0, 2));
    assert Step(None, 3, 1, t0) == Decision(true, s1);
    assert Step(s1, 3, 1, t0) == Decision(true, s2);
    assert Step(s2, 3, 1, t0) == Decision(true, s3);
    assert Step(s3, 3, 1, t0) == Decision(false, s3);
    assert Step(s3, 3, 1, t0 + 1).allowed;
    assert Outcomes(s3, 3, 1, [t0 + 1]) == [true];
    assert Outcomes(s3, 3, 1, [t0, t0 + 1]) == [false, true];
    assert Outcomes(s2, 3, 1, [t0, t0, t0 + 1]) == [true, false, true];
    assert Outcomes(s1, 3, 1, [t0, t0, t0, t0 + 1]) == [true, true, false, true];
  }
}
