/** The older generation of the service (main.go). It runs the same
    token-bucket script and the same masking rules, but its IP limiter
    answers a script error with 500, its key check asks only whether the key
    exists, its keys are plain strings with no expiry, and its bulk route has
    no plan gate. */
module Legacy {
  import opened Common
  import opened TokenBucket
  import opened Store
  import opened Middleware
  import opened Handlers
  import opened Masking

  /** The per-IP limiter of the older generation: a script error is a 500,
      only a denial is a 429. */
  method LegacyRateLimit(db: Redis, ip: Option<string>, now: int, faults: set<Call>) returns (v: Verdict)
    requires db.BucketsWithin(LimitTokens)
    modifies db
    ensures db.BucketsWithin(LimitTokens)
    ensures db.apiKeys == old(db.apiKeys) && db.usage == old(db.usage)
    ensures ip.None? ==> v == Reject(StatusInternalServerError, "Unable to parse IP address") && db.buckets == old(db.buckets)
    ensures ip.Some? && RunScript in faults ==> v == Reject(StatusInternalServerError, "Internal error") && db.buckets == old(db.buckets)
    ensures ip.Some? && RunScript !in faults ==>
              var d := Decide(old(db.buckets), ip.value, now);
              && db.buckets == Commit(old(db.buckets), LimitKey(ip.value), d)
              && v == (if d.allowed then Next else Reject(StatusTooManyRequests, "Too Many Requests"))
  {
    if ip.None? {
      return Reject(StatusInternalServerError, "Unable to parse IP address");
    }
    var key := LimitKey(ip.value);
    StepKeepsBounds(BucketAt(db.buckets, key), LimitTokens, LimitRefillSeconds, now);
    if RunScript in faults {
      return Reject(StatusInternalServerError, "Internal error");
    }
    var result := db.EvalTokenBucket(key, LimitTokens, LimitRefillSeconds, now);
    if result == 0 {
      return Reject(StatusTooManyRequests, "Too Many Requests");
    }
    v := Next;
  }

  /** The key check of the older generation: the key only has to exist,
      whatever it holds. Nothing is counted and nothing is rate limited. */
  function LegacyRequireAPIKey(db: Redis, key: string, faults: set<Call>): (v: Verdict)
    reads db
    ensures key == "" ==> v == Reject(StatusUnauthorized, "Missing API key")
    ensures key != "" && v != Next ==> v == Reject(StatusUnauthorized, "Invalid API key")
    ensures v == Next <==> key != "" && CheckExists !in faults && key in db.apiKeys
  {
    if key == "" then Reject(StatusUnauthorized, "Missing API key")
    else if CheckExists in faults || !db.Exists(key) then Reject(StatusUnauthorized, "Invalid API key")
    else Next
  }

  /** Issues a key of the older generation: the value "true" (sent as "1")
      stored under the key with no expiry, replacing whatever was there. */
  method LegacyGenerateAPIKeyHandler(db: Redis, rnd: Option<seq<byte>>, faults: set<Call>) returns (reply: Reply<string>)
    requires rnd.Some? ==> |rnd.value| == 16
    modifies db
    ensures db.usage == old(db.usage) && db.buckets == old(db.buckets)
    ensures rnd.None? ==> reply == Error(StatusInternalServerError, "Could not generate API key") && db.apiKeys == old(db.apiKeys)
    ensures rnd.Some? && SetString in faults ==>
              reply == Error(StatusInternalServerError, "Failed to store API key") && db.apiKeys == old(db.apiKeys)
    ensures rnd.Some? && SetString !in faults ==>
              reply == Ok(HexEncode(rnd.value)) && db.apiKeys == old(db.apiKeys)[HexEncode(rnd.value) := Str("1", NoExpiry)]
    ensures reply.Ok? ==> |reply.body| == 32 && forall i :: 0 <= i < 32 ==> IsHexDigit(reply.body[i])
  {
    var key := GenerateAPIKey(rnd);
    if key.None? {
      return Error(StatusInternalServerError, "Could not generate API key");
    }
    if SetString in faults {
      return Error(StatusInternalServerError, "Failed to store API key");
    }
    db.Set(key.value, "1");
    reply := Ok(key.value);
  }

  /** The bulk route of the older generation: no plan gate. */
  method LegacyBulkHandler(body: Option<seq<MaskRequest>>) returns (reply: Reply<seq<string>>)
    ensures body.None? ==> reply == Error(StatusBadRequest, "Invalid JSON")
    ensures body.Some? ==>
              && reply.Ok? && |reply.body| == |body.value|
              && forall i :: 0 <= i < |body.value| ==> reply.body[i] == ApplyMask(body.value[i].kind, body.value[i].value).value
  {
    if body.None? {
      return Error(StatusBadRequest, "Invalid JSON");
    }
    var resp := MaskEach(body.value);
    reply := Ok(resp);
  }

  // ------------------------------------------------------------ lemmas

  /** A revoked key still passes the older key check, while the current
      one refuses it. */
  lemma RevokedKeyPassesLegacyCheck(db: Redis, key: string)
    requires key != "" && key in db.apiKeys && IsRevoked(db.apiKeys[key])
    ensures LegacyRequireAPIKey(db, key, {}) == Next
    ensures !IsActive(db.HGetAll(key))
  {
  }

  /** A key issued by the older generation passes its own key check, but the
      current generation refuses it: its record is not a hash, so HGETALL
      reports an error. */
  lemma LegacyKeyRefusedByCurrentCheck(db: Redis, key: string)
    requires key != "" && key in db.apiKeys && db.apiKeys[key] == Str("1", NoExpiry)
    ensures LegacyRequireAPIKey(db, key, {}) == Next
    ensures db.HGetAll(key).None? && !IsActive(db.HGetAll(key))
    ensures UsageHandler(db, key, {}) == Error(StatusUnauthorized, "Invalid or revoked API key")
    ensures MetadataHandler(db, key, {}) == Error(StatusUnauthorized, "Invalid API key")
  {
  }
}
