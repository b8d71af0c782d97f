# Masking service: a verified model

A model of the core of a small Go HTTP service. The service redacts Indian
personal identifiers (PAN, Aadhaar, mobile number, e-mail address and GSTIN)
and guards its routes with API keys and token-bucket rate limits kept in
Redis. The model covers:

- **Masking rules** (`masking.dfy`). These are the five rules, the
  case-insensitive dispatcher and type detection, written as pure functions
  on strings.
- **Token-bucket rule** (`token_bucket.dfy`). This is the server-side script
  shared by both rate limiters, stated as a step function on the stored
  bucket.
- **Store** (`store.dfy`). The Redis state is a class `Redis` with three
  maps:
  - API-key records, each a hash with a TTL, or a plain string as the older
    generation writes it;
  - usage counters;
  - token buckets.

  Each Redis command the service sends is one method or read function on
  that class. The script itself is an imperative method, proved equal to the
  step function.
- **Admission chain** (`middleware.dfy`). The per-IP limiter runs first, then
  the API-key check, which counts usage and applies a per-key limiter.
- **Handlers** (`handlers.dfy`). These cover issuing keys with an
  admin-gated plan, rotating, revoking, usage and metadata introspection, and
  the mask, validate, detect and plan-gated bulk routes.
- **Older generation** (`legacy.dfy`). These are the variants in `main.go`.

Inputs that come from outside the program are parameters:

- the clock reading;
- the random bytes behind a key, which are `None` when the random source
  fails;
- the parsed remote address, which is `None` when it does not parse;
- header and query values;
- a decoded JSON body, which is `None` when it does not decode;
- the formatted creation time.

Store errors are modelled as a set `faults` of the store calls that report
an error. A failing call changes nothing, and a failing transaction applies
nothing. A hash write on a key that holds a plain string fails with a type
error, and the other commands queued in the same transaction still apply, as
Redis transactions do.

Strings are sequences of Unicode scalar values. The e-mail rule is the one
place where Go works on bytes:

- its length check counts UTF-8 bytes;
- the character it keeps is the first byte of the local part, converted back
  to a code point.

The model states both (`Masking.ByteLength`, `Masking.LeadByte`).

`main.go` repeats the masking functions, `applyMask`, `detectType` and the
token-bucket script (main.go:76-94, main.go:162-252) with the same code as
`masking.go` and `middleware.go`. The members cited for those files model the
copies too.

Some behaviours of the code are easy to miss, and the model keeps them:

- **Revoke without a key.** It answers 401, while rotate without a key answers 400.
- **Usage is counted before the per-key limiter.** The key check increments
  the usage counter first, so a request refused with 429 has still been
  counted (`Middleware.CountedButLimited`).
- **Script errors.** In the current IP limiter a script error is answered
  429. In the older one it is answered 500.
- **`last_refill` follows the clock.** It moves forward only while the clock
  does. A call admitted with an earlier clock reading moves it back
  (`TokenBucket.ClockSkewRewindsLastRefill`).
- **Shared bucket key space.** The IP limiter and the key limiter use the
  same keys (`Middleware.SharedScopes`).

## Model

| member | source | states |
|---|---|---|
| TokenBucket.Refilled | middleware.go:15-19 | refilled tokens never exceed the maximum, and are either the maximum or no fewer than before |
| TokenBucket.Available | middleware.go:14-19 | an absent bucket offers exactly the maximum; a stored bucket offers at most the maximum, and either the maximum or no fewer tokens than it holds; with no time elapsed it offers min(max, stored tokens) |
| TokenBucket.Step | middleware.go:9-27 | a call is admitted exactly when the refilled count is positive; a denied call leaves the bucket as it was; an admitted call stores exactly the refilled count minus one, `now` as last refill, and an expiry of twice the refill time |
| TokenBucket.AbsentBucketIsFull | middleware.go:15-16 | an absent bucket offers exactly the maximum, at any time |
| TokenBucket.RefillAfterIntervals | middleware.go:17-19 | for a stored bucket, after k whole intervals plus less than one more, the count is min(max, tokens + k); in the running service a bucket idle for 2 or more intervals has expired and reads as full, so for k >= 2 this describes the stored bucket, not what the service sees |
| TokenBucket.NoCreditWithoutElapsedTime | middleware.go:17-19 | a clock at or before the last refill credits nothing |
| TokenBucket.StepKeepsBounds | middleware.go:19-22 | a stored count in [0, max] stays in [0, max]; an admitted call leaves it in [0, max-1] |
| TokenBucket.LastRefillMonotone | middleware.go:22 | the last refill time does not move back while the clock does not |
| TokenBucket.ClockSkewRewindsLastRefill | middleware.go:17-22 | an admitted call with an earlier clock moves last refill back |
| TokenBucket.DrainWithinInterval | middleware.go:15-27 | a bucket of k tokens admits exactly k calls within one interval and denies the next |
| TokenBucket.FreshBucketBurst | middleware.go:15-27 | a fresh scope admits max calls within one interval of its first call and denies the one after |
| TokenBucket.WiredScenario | middleware.go:36-41 | with 3 tokens and 1 second: admit, admit, admit, deny at t0, admit at t0+1 |
| Store.HSetOn | handlers.go:113 | HSET merges the written fields over the stored ones, keeps the TTL (none for a new hash) and touches no other key |
| Store.ExpireOn | handlers.go:114 | EXPIRE sets the TTL of an existing key only and touches no other key |
| Store.Commit | middleware.go:20-26 | the bucket is written back only for an admitted call; other scopes never change |
| Store.Redis.HSet | handlers.go:113 | HSET leaves the records as HSetOn says (merge, TTL kept) and touches no counter or bucket |
| Store.Redis.Expire | handlers.go:114 | EXPIRE leaves the records as ExpireOn says and touches no counter or bucket |
| Store.Redis.GetCounter | handlers.go:185 | GET of the usage counter answers a value exactly when the counter exists, and then its current count |
| Store.Redis.TtlOf | handlers.go:196 | TTL of an existing key answers the expiry last set on it, whichever type the key holds |
| Store.Redis.Exists | main.go:127 | EXISTS is true exactly when something is stored under the key, hash or plain string |
| Store.Redis.HGetAll | middleware.go:58 | HGETALL reports an error exactly when a plain string is stored, answers the stored fields of a hash, and an empty map for a missing key |
| Store.Redis.Incr | middleware.go:65 | INCR adds one to the counter, a missing counter counting from 0, and changes nothing else |
| Store.Redis.EvalTokenBucket | middleware.go:9-27 | the script answers 1 exactly when Step admits, and leaves the buckets as Commit says |
| Store.Redis.Set | main.go:143 | SET replaces the value with a plain string with no expiry |
| Middleware.LimitKey | middleware.go:36 | the bucket key is "ratelimit:" followed by the scope, which can be read back |
| Middleware.RedisRateLimit | middleware.go:29-48 | bad address gives 500; a script error or a denial gives 429 with the bucket unchanged; the request goes on exactly when the script admits; records and counters never change; bucket bounds kept |
| Middleware.RequireAPIKey | middleware.go:50-78 | missing key gives 401 and an unusable or inactive record gives 401, neither writing anything; otherwise usage is counted (unless INCR fails) before the per-key limiter, which gives 429 on error or denial; only an active hash passes |
| Middleware.Decide | middleware.go:36-41 | the script on the wired parameters admits exactly when the scope's bucket offers a token, then stores one fewer with `now`; a scope with no bucket is admitted and left with 2 tokens |
| Middleware.Admit | middleware.go:29-78 | the IP limiter's rejection (500 for a bad address, 429 otherwise) with nothing written; after an IP admission, the key check's answer and store on the buckets the IP limiter left, each limiter with its own clock reading; the request goes on exactly when the IP bucket admits and the key is active and its own bucket admits |
| Middleware.SharedScopes | middleware.go:36 | an IP address and an API key share a bucket exactly when they are spelled the same |
| Middleware.CountedButLimited | middleware.go:64-74 | an active key whose bucket offers no token at that time gets 429, its bucket is not written, and its counter still goes up by one |
| Middleware.BurstFromOneAddress | middleware.go:36-46 | one new address: three requests go on at t0, the fourth gets 429, one at t0+1 goes on |
| Handlers.HexEncode | handlers.go:131 | two lower-case hex digits per byte |
| Handlers.HexRoundTrip | handlers.go:131 | decoding a hex key gives back the bytes |
| Handlers.KeysAreInjective | handlers.go:125-132 | distinct random bytes give distinct keys |
| Handlers.GenerateAPIKey | handlers.go:125-132 | a key exists exactly when the random source succeeds, and is 32 lower-case hex digits |
| Handlers.SelectPlan | handlers.go:98-104 | "pro" or "ultra" exactly when asked for with token "secret-123"; "free" in every other case |
| Handlers.IssuedFields | handlers.go:106-110 | a new record is well formed: active "true", the chosen plan, the creation time |
| Handlers.HSetKeepsWellFormed | handlers.go:113 | writing a full record, or only deactivating, keeps every record well formed |
| Handlers.GenerateAPIKeyHandler | handlers.go:88-123 | random failure gives 500 with no write; failed transaction gives 500 with no write; a plain string under the key gives 500 with only the expiry applied; otherwise the key is returned and its record is active with the selected plan, the creation time and a 30-day TTL; counters and buckets untouched |
| Handlers.RotateAPIKeyHandler | handlers.go:134-166 | missing key gives 400 and an inactive or unreadable old record gives 401, neither writing; random failure and failed transaction give 500 with no write; otherwise the store is RotateOn (or RotateOnString on a type error, answered 500); counters untouched |
| Handlers.RotateOn | handlers.go:153-157 | a completed rotation adds the new key, leaves the old key revoked, gives a distinct new key a 30-day TTL, and changes no other record |
| Handlers.RotateOnString | handlers.go:153-157 | a rotation whose hash write hits a plain string adds no key, leaves the old key revoked, sets the 30-day TTL on the string, and changes no other record |
| Handlers.RotateEffect | handlers.go:153-157 | after rotation the new key holds every old field (plan, creation time, active "true") with a 30-day TTL; the old record differs only in active = "false" and keeps its TTL; no other record changes |
| Handlers.RotateOntoItself | handlers.go:147-157 | if the new random key equals the old one, rotation leaves that key revoked |
| Handlers.RevokeAPIKeyHandler | handlers.go:219-244 | missing key gives 401; a missing or unreadable record gives 401; a failed write gives 500; otherwise active becomes "false", all other fields and the TTL are kept |
| Handlers.RevokeIdempotent | handlers.go:235 | deactivating twice gives the same records as once |
| Handlers.RevokeTwice | handlers.go:219-244 | revoking twice succeeds both times and leaves the state of one revocation |
| Handlers.RevocationIsTerminal | handlers.go:113-114 | revoking, issuing and rotating keep every revoked record revoked, except the key being issued or rotated onto |
| Handlers.IssuingOverRevokedKeyRevivesIt | handlers.go:113-114 | a new key that collides with a revoked one makes that record active again |
| Handlers.TtlReply | handlers.go:196 | TTL(...).Val() gives the key's TTL, or the zero duration when the read reports an error |
| Handlers.UsageHandler | handlers.go:168-198 | answered exactly for an active record; reports the counter, 0 if it is missing or unreadable, with plan, creation time and TTL, a zero duration if the TTL read fails; otherwise 401 |
| Handlers.MetadataHandler | handlers.go:200-217 | answered exactly for a non-empty record, revoked or not, with its fields and TTL, a zero duration if the TTL read fails; otherwise 401 |
| Handlers.RevokedKeyIntrospection | handlers.go:177-213 | a revoked key is refused by usage and still described by metadata |
| Handlers.RotateThenInspect | handlers.go:134-198 | after rotation the new key reports usage 0 with the old plan and creation time and a 30-day TTL; the old key is refused |
| Handlers.MaskHandler | handlers.go:19-33 | bad JSON gives 400; a rejected value gives 400; otherwise the masked value, at least 5 characters |
| Handlers.ValidateHandler | handlers.go:59-69 | answers true exactly when the mask route would accept the same request |
| Handlers.DetectHandler | handlers.go:72-86 | answers "" or a listed type name; a named type passes validation for the same value |
| Handlers.MaskEach | handlers.go:50-54 | one entry per input, in order, each the masked value, and "" exactly for the inputs that fail validation |
| Handlers.BulkHandler | handlers.go:36-56 | 403 unless the plan header is "pro" or "ultra", checked before the body; bad JSON gives 400; otherwise one masked entry per input in order |
| Legacy.LegacyRateLimit | main.go:96-118 | bad address gives 500; a script error gives 500 "Internal error"; a denial gives 429; the request goes on exactly when the script admits |
| Legacy.LegacyRequireAPIKey | main.go:120-134 | a request passes exactly when the key is non-empty and something is stored under it; otherwise 401 |
| Legacy.LegacyGenerateAPIKeyHandler | main.go:136-159 | random failure gives 500; a failed SET gives 500 with no write; otherwise a 32-hex-digit key stored as a plain "1" with no expiry |
| Legacy.LegacyBulkHandler | main.go:254-266 | no plan gate; bad JSON gives 400; otherwise one masked entry per input in order |
| Legacy.RevokedKeyPassesLegacyCheck | main.go:127-128 | a revoked key passes the older key check but fails the current one |
| Legacy.LegacyKeyRefusedByCurrentCheck | main.go:143 | a key issued by the older generation passes its own check and is refused by the current key check, usage and metadata |
| Masking.MaskPAN | masking.go:8-14 | accepted exactly for 5 upper-case letters, 4 digits and an upper-case letter; the result keeps characters 1-2 and 6-10 with XXX between |
| Masking.MaskPANIdempotent | masking.go:8-14 | a masked PAN is still a PAN and masks to itself |
| Masking.MaskAadhaar | masking.go:16-23 | a rejection is ("", false); an acceptance is 14 characters starting "XXXX-XXXX-" |
| Masking.Without | masking.go:17 | deleting a character leaves no occurrence of it, adds no character, and leaves a string without it as it was |
| Masking.StripDashesAndSpaces | masking.go:17 | deleting dashes and spaces gives the digits, or leaves a non-digit when another character was present |
| Masking.AadhaarAccepts | masking.go:16-23 | accepted exactly when only digits, dashes and spaces occur and there are 12 digits; the result is "XXXX-XXXX-" and the last 4 digits |
| Masking.MaskPhone | masking.go:25-32 | a rejection is ("", false); an acceptance is 10 characters with stars at positions 3-7 |
| Masking.StripSpaces | masking.go:26 | deleting spaces gives the digits, or leaves a non-digit when another character was present |
| Masking.PhoneAccepts | masking.go:25-32 | accepted exactly when only digits and spaces occur and there are 10 digits, the first 6-9; the result is the first 2 digits, five stars, the last 3 |
| Masking.MaskEmail | masking.go:34-40 | an acceptance has exactly one '@' and reads x***@...; a rejection is ("", false) |
| Masking.EmailParts | masking.go:34-40 | for local@domain without another '@': accepted exactly when the local part has 2 or more UTF-8 bytes, giving its first byte, "***@" and the domain unchanged |
| Masking.Utf8Length | masking.go:36 | a character takes 1 byte below U+0080, 2 below U+0800, 3 below U+10000 and 4 above |
| Masking.ByteLength | masking.go:36 | `len` of a string is between its character count and four times it, equal to it exactly for all-ASCII text, and larger when some character is not ASCII |
| Masking.LeadByte | masking.go:39 | `string(s[0])` gives the code point of the first UTF-8 byte: the character itself when ASCII, otherwise the lead byte 0xC0 + n/0x40, 0xE0 + n/0x1000 or 0xF0 + n/0x40000 by encoded length |
| Masking.ByteLengthAtLeastTwo | masking.go:36 | a local part has 2 or more bytes when it has 2 characters, or one non-ASCII character |
| Masking.EmailKeepsFirstByte | masking.go:39 | "é@x.in" masks to "Ã***@x.in": the kept byte 0xC3 is read as a code point |
| Masking.MaskEmailIdempotent | masking.go:34-40 | a masked address with an ASCII first character masks to itself |
| Masking.MaskGSTIN | masking.go:42-48 | accepted exactly for the 15-character GSTIN pattern; the result keeps characters 1-5 and 11-15 with five stars between |
| Masking.RedactionIsNotReaccepted | masking.go:16-48 | masked Aadhaar, phone and GSTIN values are rejected by their own rule |
| Masking.ApplyMask | masking.go:50-65 | an unknown type name, after lower-casing, gives ("", false); every acceptance is at least 5 characters |
| Masking.ApplyMaskByName | masking.go:50-65 | each of the five names selects its own rule |
| Masking.ApplyMaskIgnoresCase | masking.go:51 | the dispatcher gives the same answer for a name and its lower case |
| Masking.ApplyMaskAnyCase | masking.go:50-65 | a type name written with any of its letters in upper case ("PAN", "Email") selects the same rule as the name |
| Masking.ToLowerChar | masking.go:51 | A-Z map to a-z, U+0130 to 'i', U+212A to 'k', every other character to itself; no result is an upper-case ASCII letter |
| Masking.ToLower | masking.go:51 | lower-casing keeps the length and maps each character on its own by ToLowerChar |
| Masking.ToLowerIdempotent | masking.go:51 | lower-casing twice is lower-casing once |
| Masking.DetectType | masking.go:67-84 | the answer is "" or a listed type name, and a named type's rule accepts the value |
| Masking.DetectTypeIsFirstAccepting | masking.go:67-84 | "" exactly when no rule accepts; otherwise no rule earlier in the order pan, aadhaar, phone, email, gstin accepts |
| Masking.AtMostOneRuleAccepts | masking.go:67-84 | no value is accepted by two rules, so the detection order never matters |
| Masking.MaskedValuesAreDetected | masking.go:67-84 | a masked PAN is detected as a PAN; a masked address with an ASCII first character is detected as e-mail |

## Left out

- HTTP and JSON plumbing is not modelled. This covers writing headers and status, encoding bodies and the `{"error": ...}` envelope. A handler answers a `Reply` value and a middleware answers a `Verdict`. An empty bulk answer, which Go encodes as `null`, is modelled as an empty sequence.
- Redis connection setup (`redis.go`, `initRedis`) and the declarations in `types.go` are I/O setup and declarations only. The request shapes reappear as datatypes.
- Concurrency is not modelled. Each script call and each transaction is one atomic step, and the window between reading a record and rotating it is not represented.
- `net.SplitHostPort`, `crypto/rand` and `time.Now` are inputs, not modelled code. They appear as the `ip`, `rnd` and `now` parameters.
- Store errors are all-or-nothing. A call in `faults` is taken to have had no effect, and a failed transaction to have applied nothing. An error reported after Redis applied the command is not modelled, such as a read time-out or a lost EXEC reply. So "a script error gives 429 with the bucket unchanged" (Middleware.RedisRateLimit) and "a failed transaction gives 500 with no write" (Handlers.GenerateAPIKeyHandler, Handlers.RotateAPIKeyHandler) hold only under this assumption.
- Redis-driven expiry is not modelled. The model records the TTL last set, not the passing of time that removes keys or buckets.
- Handlers.UsageHandler: reports the TTL value, not Go's duration text for it.
- Handlers.MetadataHandler: reports the TTL value, not Go's duration text for it. It also keeps the TTL beside the stored fields rather than as an extra `expires_in` field of the same map.
- The RFC 3339 formatting of `created_at` is not modelled. The creation time is an opaque string parameter.
- TokenBucket.Step: uses unbounded integers. The script's double-precision numbers and its fallback for non-numeric stored fields are not modelled. An absent bucket is the only default.
- Store.Redis.Incr: does not model the 64-bit overflow error of INCR.
- Store.Redis.EvalTokenBucket: assumes a bucket key holds a bucket. A hash of some other shape, and the namespace of usage counters, are not modelled.
- Masking.ToLower: lower-cases only ASCII letters and the two non-ASCII code points whose lower case is an ASCII letter. Other code points are left as they are, which changes no comparison with a type name.
- The regular-expression engine is not modelled. Each anchored pattern is restated as a predicate over characters.
- Legacy.LegacyRequireAPIKey: records and usage counters live in separate maps, so EXISTS sees only records. In Redis the counter "apikey:<K>:usage_count" is itself a key under the "apikey:" prefix, so the older check also lets through the header "<K>:usage_count" once K has been used. The model refuses that header with 401.
- Store.Redis.HGetAll: does not model a hash emptied by the deletion of its last field. The service never deletes fields.
- Legacy routes: the older generation's mask, validate and detect handlers are the same as the current ones over the same masking functions, so they are covered by Handlers.MaskHandler, Handlers.ValidateHandler and Handlers.DetectHandler.
- Route wiring: the route tables in `main.go` and the order in which middlewares wrap each route are not modelled. Admission is modelled by Middleware.Admit.
