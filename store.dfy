/** The shared Redis instance, reduced to the keys the service touches:
    - "apikey:<key>": the record of an API key, a hash with the fields
      `active`, `plan` and `created_at` (or, as the older generation of the
      service writes it, a plain string);
    - "apikey:<key>:usage_count": an integer counter;
    - "ratelimit:<scope>": a token bucket, for an IP address or an API key.
    Each command the service sends is one atomic step on this state; a
    command that reports an error changes nothing. */
module Store {
  import opened Common
  import opened TokenBucket

  /** The time to live last set on a key. */
  datatype Ttl = NoExpiry | ExpiresIn(seconds: int)

  /** What "apikey:<key>" holds. */
  datatype Entry = Hash(fields: map<string, string>, ttl: Ttl) | Str(text: string, ttl: Ttl)

  /** The store calls that can fail; a handler is told which of its calls do. */
  datatype Call = ReadHash | WriteHash | ReadCounter | ReadTtl | IncrCounter | RunScript | ExecTx | SetString | CheckExists

  /** Go's map read: a missing field reads as "". */
  function Field(fields: map<string, string>, name: string): (v: string)
    ensures name in fields ==> v == fields[name]
    ensures name !in fields ==> v == ""
  {
    if name in fields then fields[name] else ""
  }

  const Plans: set<string> := {"free", "pro", "ultra"}

  /** A key record as the service writes it. */
  predicate WellFormed(fields: map<string, string>) {
    && Field(fields, "active") in {"true", "false"}
    && Field(fields, "plan") in Plans
    && "created_at" in fields
  }

  /** HGETALL's reply viewed by the handlers: active exactly when the
      `active` field reads "true". */
  predicate IsActive(meta: Option<map<string, string>>) {
    meta.Some? && |meta.value| > 0 && Field(meta.value, "active") == "true"
  }

  predicate IsRevoked(e: Entry) {
    e.Hash? && Field(e.fields, "active") == "false"
  }

  /** Fields already stored under a key that may take a hash write. */
  function FieldsOf(m: map<string, Entry>, key: string): (fields: map<string, string>)
    requires key !in m || m[key].Hash?
    ensures key in m ==> fields == m[key].fields
    ensures key !in m ==> fields == map[]
  {
    if key in m then m[key].fields else map[]
  }

  /** HSET: merges `data` into the hash, creating it without a TTL when
      absent, and keeps its TTL otherwise. */
  function HSetOn(m: map<string, Entry>, key: string, data: map<string, string>): (r: map<string, Entry>)
    requires key !in m || m[key].Hash?
    ensures r.Keys == m.Keys + {key}
    ensures r[key].Hash? && r[key].fields.Keys == FieldsOf(m, key).Keys + data.Keys
    ensures forall f :: f in data ==> r[key].fields[f] == data[f]
    ensures forall f :: f in FieldsOf(m, key) && f !in data ==> r[key].fields[f] == FieldsOf(m, key)[f]
    ensures r[key].ttl == (if key in m then m[key].ttl else NoExpiry)
    ensures forall k :: k in m && k != key ==> r[k] == m[k]
  {
    m[key := Hash(FieldsOf(m, key) + data, if key in m then m[key].ttl else NoExpiry)]
  }

  /** EXPIRE: sets the TTL of an existing key; a missing key stays missing. */
  function ExpireOn(m: map<string, Entry>, key: string, seconds: int): (r: map<string, Entry>)
    ensures r.Keys == m.Keys
    ensures key in m ==> r[key] == m[key].(ttl := ExpiresIn(seconds))
    ensures forall k :: k in m && k != key ==> r[k] == m[k]
  {
    if key in m then m[key := m[key].(ttl := ExpiresIn(seconds))] else m
  }

  /** The stored bucket under a limiter key, if any. */
  function BucketAt(buckets: map<string, Bucket>, key: string): (b: Option<Bucket>)
    ensures b.Some? <==> key in buckets
    ensures b.Some? ==> b.value == buckets[key]
  {
    if key in buckets then Some(buckets[key]) else None
  }

  /** The buckets after the script decided `d` for `key`: written back when
      the call was admitted, untouched when it was denied. */
  function Commit(buckets: map<string, Bucket>, key: string, d: Decision): (r: map<string, Bucket>)
    requires d.allowed ==> d.after.Some?
    ensures !d.allowed ==> r == buckets
    ensures d.allowed ==> r.Keys == buckets.Keys + {key} && r[key] == d.after.value
    ensures forall k :: k in buckets && k != key ==> r[k] == buckets[k]
  {
    if d.allowed then buckets[key := d.after.value] else buckets
  }

  /** No revoked record has become usable again, except under `exempt`. */
  ghost predicate RevokedStayRevoked(before: map<string, Entry>, after: map<string, Entry>, exempt: set<string>) {
    forall k :: k in before && IsRevoked(before[k]) && k !in exempt ==> k in after && IsRevoked(after[k])
  }

  class Redis {
    /** "apikey:<key>", by <key>. */
    var apiKeys: map<string, Entry>
    /** "apikey:<key>:usage_count", by <key>. */
    var usage: map<string, int>
    /** Token buckets, by their full limiter key. */
    var buckets: map<string, Bucket>

    /** Every key record is well formed and every usage counter non-negative. */
    ghost predicate Valid()
      reads this
    {
      && (forall k :: k in apiKeys && apiKeys[k].Hash? ==> WellFormed(apiKeys[k].fields))
      && (forall k :: k in usage ==> usage[k] >= 0)
    }

    /** Every bucket holds between 0 and `maxTokens` tokens. */
    ghost predicate BucketsWithin(maxTokens: int)
      reads this
    {
      forall s :: s in buckets ==> 0 <= buckets[s].tokens <= maxTokens
    }

    constructor ()
      ensures Valid() && BucketsWithin(0)
      ensures apiKeys == map[] && usage == map[] && buckets == map[]
    {
      apiKeys, usage, buckets := map[], map[], map[];
    }

    /** HGETALL "apikey:<key>": the fields, an empty map for a missing key,
        and an error (None) when a plain string is stored there. */
    function HGetAll(key: string): (r: Option<map<string, string>>)
      reads this
      ensures r.None? <==> key in apiKeys && apiKeys[key].Str?
      ensures r.Some? && |r.value| > 0 ==> key in apiKeys
      ensures key in apiKeys && apiKeys[key].Hash? ==> r == Some(apiKeys[key].fields)
      ensures key !in apiKeys ==> r == Some(map[])
    {
      if key !in apiKeys then Some(map[])
      else match apiKeys[key]
        case Hash(fields, _) => Some(fields)
        case Str(_, _) => None
    }

    /** GET "apikey:<key>:usage_count"; None when the counter is missing. */
    function GetCounter(key: string): (count: Option<int>)
      reads this
      ensures count.Some? <==> key in usage
      ensures count.Some? ==> count.value == usage[key]
    {
      if key in usage then Some(usage[key]) else None
    }

    /** TTL "apikey:<key>" of an existing key: the expiry last set on it,
        whichever type it holds. */
    function TtlOf(key: string): (t: Ttl)
      reads this
      requires key in apiKeys
      ensures t == apiKeys[key].ttl
    {
      apiKeys[key].ttl
    }

    /** EXISTS "apikey:<key>", whatever the type of the value. */
    function Exists(key: string): (found: bool)
      reads this
      ensures found <==> key in apiKeys
    {
      key in apiKeys
    }

    method HSet(key: string, data: map<string, string>)
      requires key !in apiKeys || apiKeys[key].Hash?
      modifies this
      ensures apiKeys == HSetOn(old(apiKeys), key, data)
      ensures usage == old(usage) && buckets == old(buckets)
    {
      apiKeys := HSetOn(apiKeys, key, data);
    }

    method Expire(key: string, seconds: int)
      modifies this
      ensures apiKeys == ExpireOn(old(apiKeys), key, seconds)
      ensures usage == old(usage) && buckets == old(buckets)
    {
      apiKeys := ExpireOn(apiKeys, key, seconds);
    }

    /** SET "apikey:<key>" to a plain string with no expiration: replaces
        whatever was there. */
    method Set(key: string, text: string)
      modifies this
      ensures apiKeys == old(apiKeys)[key := Str(text, NoExpiry)]
      ensures usage == old(usage) && buckets == old(buckets)
    {
      apiKeys := apiKeys[key := Str(text, NoExpiry)];
    }

    /** INCR "apikey:<key>:usage_count": a missing counter counts from 0. */
    method Incr(key: string)
      modifies this
      ensures usage == old(usage)[key := (if key in old(usage) then old(usage)[key] else 0) + 1]
      ensures apiKeys == old(apiKeys) && buckets == old(buckets)
    {
      var count := 0;
      if key in usage {
        count := usage[key];
      }
      usage := usage[key := count + 1];
    }

    /** EVAL of the token-bucket script on one limiter key, as one atomic
        step: 1 when the call is admitted, 0 when it is denied. */
    method EvalTokenBucket(key: string, maxTokens: int, refillTime: int, now: int) returns (result: int)
      requires refillTime >= 1
      modifies this
      ensures var d := Step(BucketAt(old(buckets), key), maxTokens, refillTime, now);
              && result == (if d.allowed then 1 else 0)
              && buckets == Commit(old(buckets), key, d)
      ensures apiKeys == old(apiKeys) && usage == old(usage)
    {
      var tokens, lastRefill := maxTokens, 0;
      if key in buckets {
        tokens, lastRefill := buckets[key].tokens, buckets[key].lastRefill;
      }
      var delta := if now - lastRefill > 0 then now - lastRefill else 0;
      var refill := delta / refillTime;
      tokens := if tokens + refill < maxTokens then tokens + refill else maxTokens;
      if tokens > 0 {
        tokens := tokens - 1;
        // HMSET tokens and last_refill, then EXPIRE
        buckets := buckets[key := Bucket(tokens, now, refillTime * 2)];
        result := 1;
      } else {
        result := 0;
      }
    }
  }
}
