/** The admission chain of the current service (middleware.go): a per-IP
    token-bucket limiter, then the API-key check, which counts the request
    and applies a per-key token bucket. Each step either lets the request on
    (`Next`) or answers it with an error. The clock reading `now` and the
    parsed remote address are parameters; `faults` names the store calls
    that report an error. */
module Middleware {
  import opened Common
  import opened TokenBucket
  import opened Store

  /** The parameters both limiters pass to the script: three tokens,
      refilled one per second. */
  const LimitTokens := 3
  const LimitRefillSeconds := 1

  /** The store key of the bucket for an IP address or an API key. The two
      limiters share one key space. */
  function LimitKey(scope: string): (k: string)
    ensures |k| == |scope| + 10 && k[10..] == scope
  {
    "ratelimit:" + scope
  }

  /** The decision the script takes for `scope` on the buckets `buckets`. */
  function Decide(buckets: map<string, Bucket>, scope: string, now: int): (d: Decision)
    ensures d.allowed <==> Available(BucketAt(buckets, LimitKey(scope)), LimitTokens, LimitRefillSeconds, now) > 0
    ensures !d.allowed ==> d.after == BucketAt(buckets, LimitKey(scope))
    ensures d.allowed ==> d.after == Some(Bucket(Available(BucketAt(buckets, LimitKey(scope)), LimitTokens, LimitRefillSeconds, now) - 1,
                                                now, 2 * LimitRefillSeconds))
    ensures LimitKey(scope) !in buckets ==> d == Decision(true, Some(Bucket(LimitTokens - 1, now, 2 * LimitRefillSeconds)))
  {
    Step(BucketAt(buckets, LimitKey(scope)), LimitTokens, LimitRefillSeconds, now)
  }

  /** The per-IP limiter. `ip` is None when the remote address does not
      parse. A script error and a denial are both answered 429; the request
      goes on only when the script admits it. */
  method RedisRateLimit(db: Redis, ip: Option<string>, now: int, faults: set<Call>) returns (v: Verdict)
    requires db.BucketsWithin(LimitTokens)
    modifies db
    ensures db.BucketsWithin(LimitTokens)
    ensures db.apiKeys == old(db.apiKeys) && db.usage == old(db.usage)
    ensures ip.None? ==> v == Reject(StatusInternalServerError, "Unable to parse IP address") && db.buckets == old(db.buckets)
    ensures ip.Some? && RunScript in faults ==> v == Reject(StatusTooManyRequests, "Too Many Requests") && db.buckets == old(db.buckets)
    ensures ip.Some? && RunScript !in faults ==>
              var d := Decide(old(db.buckets), ip.value, now);
              && db.buckets == Commit(old(db.buckets), LimitKey(ip.value), d)
              && v == (if d.allowed then Next else Reject(StatusTooManyRequests, "Too Many Requests"))
    ensures v == Next <==> ip.Some? && RunScript !in faults && Decide(old(db.buckets), ip.value, now).allowed
  {
    if ip.None? {
      return Reject(StatusInternalServerError, "Unable to parse IP address");
    }
    var key := LimitKey(ip.value);
    StepKeepsBounds(BucketAt(db.buckets, key), LimitTokens, LimitRefillSeconds, now);
    if RunScript in faults {
      return Reject(StatusTooManyRequests, "Too Many Requests");
    }
    var result := db.EvalTokenBucket(key, LimitTokens, LimitRefillSeconds, now);
    if result == 0 {
      return Reject(StatusTooManyRequests, "Too Many Requests");
    }
    v := Next;
  }

  /** The API-key check. A missing header and an unusable record are
      answered 401 without touching the store. An active key has its usage
      counted first (an error there is ignored) and then goes through its own
      token bucket, so a request answered 429 has still been counted. */
  method RequireAPIKey(db: Redis, key: string, now: int, faults: set<Call>) returns (v: Verdict)
    requires db.Valid() && db.BucketsWithin(LimitTokens)
    modifies db
    ensures db.Valid() && db.BucketsWithin(LimitTokens)
    ensures db.apiKeys == old(db.apiKeys)
    ensures key == "" ==> v == Reject(StatusUnauthorized, "Missing API key") && unchanged(db)
    ensures key != "" && (ReadHash in faults || !IsActive(old(db.HGetAll(key)))) ==>
              v == Reject(StatusUnauthorized, "Invalid or revoked API key") && unchanged(db)
    ensures key != "" && ReadHash !in faults && IsActive(old(db.HGetAll(key))) ==>
              && db.usage == (if IncrCounter in faults then old(db.usage)
                              else old(db.usage)[key := (if key in old(db.usage) then old(db.usage)[key] else 0) + 1])
              && (RunScript in faults ==> v == Reject(StatusTooManyRequests, "Too Many Requests") && db.buckets == old(db.buckets))
              && (RunScript !in faults ==>
                    var d := Decide(old(db.buckets), key, now);
                    && db.buckets == Commit(old(db.buckets), LimitKey(key), d)
                    && v == (if d.allowed then Next else Reject(StatusTooManyRequests, "Too Many Requests")))
    ensures v == Next ==> key in old(db.apiKeys) && old(db.apiKeys)[key].Hash?
                          && Field(old(db.apiKeys)[key].fields, "active") == "true"
  {
    if key == "" {
      return Reject(StatusUnauthorized, "Missing API key");
    }
    if ReadHash in faults {
      return Reject(StatusUnauthorized, "Invalid or revoked API key");
    }
    var meta := db.HGetAll(key);
    if meta.None? || |meta.value| == 0 || Field(meta.value, "active") != "true" {
      return Reject(StatusUnauthorized, "Invalid or revoked API key");
    }
    if IncrCounter !in faults {
      db.Incr(key);
    }
    var limKey := LimitKey(key);
    StepKeepsBounds(BucketAt(db.buckets, limKey), LimitTokens, LimitRefillSeconds, now);
    if RunScript in faults {
      return Reject(StatusTooManyRequests, "Too Many Requests");
    }
    var result := db.EvalTokenBucket(limKey, LimitTokens, LimitRefillSeconds, now);
    if result == 0 {
      return Reject(StatusTooManyRequests, "Too Many Requests");
    }
    v := Next;
  }

  /** The IP limiter lets the request on. */
  predicate IpAdmits(buckets: map<string, Bucket>, ip: Option<string>, now: int, faults: set<Call>) {
    ip.Some? && RunScript !in faults && Decide(buckets, ip.value, now).allowed
  }

  /** The key check lets the request on, given the records and the buckets
      it starts from. */
  predicate KeyAdmits(apiKeys: map<string, Entry>, buckets: map<string, Bucket>, key: string, now: int, faults: set<Call>) {
    && key != "" && ReadHash !in faults
    && key in apiKeys && apiKeys[key].Hash? && Field(apiKeys[key].fields, "active") == "true"
    && RunScript !in faults && Decide(buckets, key, now).allowed
  }

  /** The chain the key-protected routes sit behind: the IP limiter first,
      the key check only for a request it lets on. Each limiter reads the
      clock itself, so the chain takes two clock readings. A request the IP
      limiter stops gets its answer and touches nothing; one it lets on
      sees the buckets as the IP limiter left them. */
  method Admit(db: Redis, ip: Option<string>, key: string, ipNow: int, keyNow: int, ipFaults: set<Call>, keyFaults: set<Call>)
    returns (v: Verdict)
    requires db.Valid() && db.BucketsWithin(LimitTokens)
    modifies db
    ensures db.Valid() && db.BucketsWithin(LimitTokens)
    ensures db.apiKeys == old(db.apiKeys)
    ensures !IpAdmits(old(db.buckets), ip, ipNow, ipFaults) ==>
              && v == (if ip.None? then Reject(StatusInternalServerError, "Unable to parse IP address")
                       else Reject(StatusTooManyRequests, "Too Many Requests"))
              && db.usage == old(db.usage) && db.buckets == old(db.buckets)
    ensures IpAdmits(old(db.buckets), ip, ipNow, ipFaults) ==>
              var mid := Commit(old(db.buckets), LimitKey(ip.value), Decide(old(db.buckets), ip.value, ipNow));
              && (key == "" ==>
                    v == Reject(StatusUnauthorized, "Missing API key") && db.usage == old(db.usage) && db.buckets == mid)
              && (key != "" && (ReadHash in keyFaults || !IsActive(old(db.HGetAll(key)))) ==>
                    && v == Reject(StatusUnauthorized, "Invalid or revoked API key")
                    && db.usage == old(db.usage) && db.buckets == mid)
              && (key != "" && ReadHash !in keyFaults && IsActive(old(db.HGetAll(key))) ==>
                    && db.usage == (if IncrCounter in keyFaults then old(db.usage)
                                    else old(db.usage)[key := (if key in old(db.usage) then old(db.usage)[key] else 0) + 1])
                    && (RunScript in keyFaults ==> v == Reject(StatusTooManyRequests, "Too Many Requests") && db.buckets == mid)
                    && (RunScript !in keyFaults ==>
                          var d := Decide(mid, key, keyNow);
                          && db.buckets == Commit(mid, LimitKey(key), d)
                          && v == (if d.allowed then Next else Reject(StatusTooManyRequests, "Too Many Requests"))))
    ensures v == Next <==>
              && IpAdmits(old(db.buckets), ip, ipNow, ipFaults)
              && KeyAdmits(old(db.apiKeys), Commit(old(db.buckets), LimitKey(ip.value), Decide(old(db.buckets), ip.value, ipNow)),
                           key, keyNow, keyFaults)
  {
    v := RedisRateLimit(db, ip, ipNow, ipFaults);
    if v == Next {
      v := RequireAPIKey(db, key, keyNow, keyFaults);
    }
  }

  /** The IP limiter and the key limiter draw on the same bucket exactly
      when the IP address and the API key are spelled the same. */
  lemma SharedScopes(ip: string, key: string)
    ensures LimitKey(ip) == LimitKey(key) <==> ip == key
  {
    if LimitKey(ip) == LimitKey(key) {
      assert ip == LimitKey(ip)[10..];
    }
  }

  /** A counted request may still be refused: when the key's bucket offers
      no token at `now`, an active key gets 429, its bucket is left as it
      was, and its counter still goes up by one. */
  method CountedButLimited(db: Redis, key: string, now: int) returns (v: Verdict)
    requires db.Valid() && db.BucketsWithin(LimitTokens)
    requires key != "" && IsActive(db.HGetAll(key))
    requires Available(BucketAt(db.buckets, LimitKey(key)), LimitTokens, LimitRefillSeconds, now) == 0
    modifies db
    ensures v == Reject(StatusTooManyRequests, "Too Many Requests")
    ensures db.buckets == old(db.buckets)
    ensures key in db.usage && db.usage[key] == (if key in old(db.usage) then old(db.usage)[key] else 0) + 1
  {
    v := RequireAPIKey(db, key, now, {});
  }

  /** The wired parameters seen from one address that has no bucket yet:
      three requests at t0 go on, a fourth at t0 is answered 429, and one at
      t0 + 1 goes on again. */
  method BurstFromOneAddress(db: Redis, ip: string, t0: int) returns (verdicts: seq<Verdict>)
    requires db.BucketsWithin(LimitTokens) && LimitKey(ip) !in db.buckets
    modifies db
    ensures verdicts == [Next, Next, Next, Reject(StatusTooManyRequests, "Too Many Requests"), Next]
  {
    var k := LimitKey(ip);
    var v1 := RedisRateLimit(db, Some(ip), t0, {});
    assert db.buckets[k] == Bucket(2, t0, 2);
    var v2 := RedisRateLimit(db, Some(ip), t0, {});
    assert db.buckets[k] == Bucket(1, t0, 2);
    var v3 := RedisRateLimit(db, Some(ip), t0, {});
    assert db.buckets[k] == Bucket(0, t0, 2);
    var v4 := RedisRateLimit(db, Some(ip), t0, {});
    assert db.buckets[k] == Bucket(0, t0, 2);
    var v5 := RedisRateLimit(db, Some(ip), t0 + 1, {});
    verdicts := [v1, v2, v3, v4, v5];
  }
}
