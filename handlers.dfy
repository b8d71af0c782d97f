/** The API-key handlers of the current service (handlers.go): issuing a key
    with an admin-gated plan, rotating, revoking, the two introspection
    routes, and the plan-gated bulk masking route. The random bytes behind a
    key (None when the random source fails), the formatted creation time and
    the request's header and query values are parameters; `faults` names the
    store calls that report an error. */
module Handlers {
  import opened Common
  import opened Store
  import opened Masking

  /** The admin token that unlocks the paid plans at issue time. */
  const AdminToken := "secret-123"

  /** Lifetime of an issued or rotated key: 30 days, in seconds. */
  const KeyTtlSeconds := 30 * 24 * 60 * 60

  /** The one-field write that revokes a key. */
  const Deactivation: map<string, string> := map["active" := "false"]

  // ------------------------------------------------------------ key format

  predicate IsHexDigit(c: char) { '0' <= c <= '9' || 'a' <= c <= 'f' }

  /** The lower-case hexadecimal digit of a nibble. */
  function HexDigit(n: int): (c: char)
    requires 0 <= n < 16
    ensures IsHexDigit(c)
  {
    if n < 10 then ('0' as int + n) as char else ('a' as int + n - 10) as char
  }

  /** Lower-case hexadecimal, two digits per byte, high nibble first. */
  function HexEncode(bs: seq<byte>): (s: string)
    ensures |s| == 2 * |bs|
    ensures forall i :: 0 <= i < |s| ==> IsHexDigit(s[i])
  {
    if bs == [] then ""
    else [HexDigit(bs[0] as int / 16), HexDigit(bs[0] as int % 16)] + HexEncode(bs[1..])
  }

  /** The value of a lower-case hexadecimal digit. */
  function HexValue(c: char): (v: Option<int>)
    ensures v.Some? <==> IsHexDigit(c)
    ensures v.Some? ==> 0 <= v.value < 16 && HexDigit(v.value) == c
  {
    if '0' <= c <= '9' then Some(c as int - '0' as int)
    else if 'a' <= c <= 'f' then Some(c as int - 'a' as int + 10)
    else None
  }

  /** The inverse of HexEncode: None on an odd length or a character that
      is not a lower-case hexadecimal digit. */
  function HexDecode(s: string): (r: Option<seq<byte>>)
    ensures r.Some? ==> 2 * |r.value| == |s|
    decreases |s|
  {
    if s == [] then Some([])
    else if |s| == 1 then None
    else match (HexValue(s[0]), HexValue(s[1]), HexDecode(s[2..]))
      case (Some(hi), Some(lo), Some(rest)) => Some([(hi * 16 + lo) as byte] + rest)
      case _ => None
  }

  /** The key made of 16 random bytes, or None when the random source
      failed. */
  function GenerateAPIKey(rnd: Option<seq<byte>>): (key: Option<string>)
    requires rnd.Some? ==> |rnd.value| == 16
    ensures key.Some? <==> rnd.Some?
    ensures key.Some? ==> |key.value| == 32 && forall i :: 0 <= i < 32 ==> IsHexDigit(key.value[i])
  {
    if rnd.None? then None else Some(HexEncode(rnd.value))
  }

  // ------------------------------------------------------------ plans

  /** The plan a new key gets: "pro" or "ultra" when asked for with the
      admin token, "free" otherwise. */
  function SelectPlan(planQuery: string, adminToken: string): (plan: string)
    ensures plan in Plans
    ensures plan == "pro" <==> planQuery == "pro" && adminToken == AdminToken
    ensures plan == "ultra" <==> planQuery == "ultra" && adminToken == AdminToken
    ensures adminToken != AdminToken ==> plan == "free"
  {
    if planQuery == "pro" && adminToken == AdminToken then "pro"
    else if planQuery == "ultra" && adminToken == AdminToken then "ultra"
    else "free"
  }

  /** The record written for a newly issued key. */
  function IssuedFields(plan: string, createdAt: string): (data: map<string, string>)
    requires plan in Plans
    ensures WellFormed(data)
    ensures Field(data, "active") == "true" && Field(data, "plan") == plan && data["created_at"] == createdAt
  {
    map["active" := "true", "plan" := plan, "created_at" := createdAt]
  }

  /** A key record that answers HGETALL with at least one field. */
  predicate Known(meta: Option<map<string, string>>) {
    meta.Some? && |meta.value| > 0
  }

  /** A record that has an `active` field, active or revoked, answers
      HGETALL with at least one field. */
  lemma ActiveOrRevokedIsKnown(m: map<string, string>)
    requires "active" in m
    ensures |m| > 0
  {
    assert "active" in m.Keys;
  }

  /** HSET keeps every record well formed when what it writes is, or when
      it only changes `active` to "false". */
  lemma HSetKeepsWellFormed(m: map<string, Entry>, key: string, data: map<string, string>)
    requires key !in m || m[key].Hash?
    requires forall k :: k in m && m[k].Hash? ==> WellFormed(m[k].fields)
    requires WellFormed(data) || (data == Deactivation && key in m)
    ensures forall k :: k in HSetOn(m, key, data) && HSetOn(m, key, data)[k].Hash? ==>
              WellFormed(HSetOn(m, key, data)[k].fields)
  {
    var r := HSetOn(m, key, data);
    assert Field(r[key].fields, "active") == (if "active" in data then data["active"] else Field(FieldsOf(m, key), "active"));
    assert Field(r[key].fields, "plan") == (if "plan" in data then data["plan"] else Field(FieldsOf(m, key), "plan"));
  }

  // ------------------------------------------------------------ lifecycle

  /** Issues a key: on success the record holds active "true", the selected
      plan and the creation time, and lives 30 days. When the transaction
      fails nothing is written; when a plain string already sits under the
      key (as the older generation writes it), the hash write fails but the
      expiry in the same transaction still applies. */
  method GenerateAPIKeyHandler(db: Redis, rnd: Option<seq<byte>>, planQuery: string, adminToken: string,
                               createdAt: string, faults: set<Call>) returns (reply: Reply<string>)
    requires db.Valid()
    requires rnd.Some? ==> |rnd.value| == 16
    modifies db
    ensures db.Valid()
    ensures db.usage == old(db.usage) && db.buckets == old(db.buckets)
    ensures rnd.None? ==> reply == Error(StatusInternalServerError, "Could not generate API key") && db.apiKeys == old(db.apiKeys)
    ensures rnd.Some? && ExecTx in faults ==>
              reply == Error(StatusInternalServerError, "Failed to store API key") && db.apiKeys == old(db.apiKeys)
    ensures rnd.Some? && ExecTx !in faults ==>
              var key := HexEncode(rnd.value);
              if key in old(db.apiKeys) && old(db.apiKeys)[key].Str? then
                && reply == Error(StatusInternalServerError, "Failed to store API key")
                && db.apiKeys == ExpireOn(old(db.apiKeys), key, KeyTtlSeconds)
              else
                && reply == Ok(key)
                && db.apiKeys == ExpireOn(HSetOn(old(db.apiKeys), key, IssuedFields(SelectPlan(planQuery, adminToken), createdAt)),
                                          key, KeyTtlSeconds)
    ensures reply.Ok? ==> && rnd.Some? && reply.body == HexEncode(rnd.value)
                          && IsActive(db.HGetAll(reply.body))
                          && Field(db.apiKeys[reply.body].fields, "plan") == SelectPlan(planQuery, adminToken)
                          && db.apiKeys[reply.body].fields["created_at"] == createdAt
                          && db.apiKeys[reply.body].ttl == ExpiresIn(KeyTtlSeconds)
  {
    var key := GenerateAPIKey(rnd);
    if key.None? {
      return Error(StatusInternalServerError, "Could not generate API key");
    }
    var plan := SelectPlan(planQuery, adminToken);
    var data := IssuedFields(plan, createdAt);
    if ExecTx in faults {
      return Error(StatusInternalServerError, "Failed to store API key");
    }
    if key.value in db.apiKeys && db.apiKeys[key.value].Str? {
      db.Expire(key.value, KeyTtlSeconds);
      return Error(StatusInternalServerError, "Failed to store API key");
    }
    HSetKeepsWellFormed(db.apiKeys, key.value, data);
    db.HSet(key.value, data);
    db.Expire(key.value, KeyTtlSeconds);
    ActiveOrRevokedIsKnown(db.apiKeys[key.value].fields);
    reply := Ok(key.value);
  }

  /** The records after a rotation transaction that went through: the old
      record's fields merged into the new key's hash, a fresh 30-day expiry
      on the new key, then the old key deactivated. */
  function RotateOn(m: map<string, Entry>, oldKey: string, newKey: string): (r: map<string, Entry>)
    requires oldKey in m && m[oldKey].Hash?
    requires newKey !in m || m[newKey].Hash?
    ensures r.Keys == m.Keys + {newKey}
    ensures IsRevoked(r[oldKey])
    ensures newKey != oldKey ==> r[newKey].Hash? && r[newKey].ttl == ExpiresIn(KeyTtlSeconds)
    ensures forall k :: k in m && k != oldKey && k != newKey ==> r[k] == m[k]
  {
    HSetOn(ExpireOn(HSetOn(m, newKey, m[oldKey].fields), newKey, KeyTtlSeconds), oldKey, Deactivation)
  }

  /** The records after a rotation transaction whose hash write on the new
      key failed because a plain string sits there: the expiry and the
      deactivation still apply. */
  function RotateOnString(m: map<string, Entry>, oldKey: string, newKey: string): (r: map<string, Entry>)
    requires oldKey in m && m[oldKey].Hash?
    ensures r.Keys == m.Keys
    ensures IsRevoked(r[oldKey])
    ensures newKey in m && newKey != oldKey ==> r[newKey] == m[newKey].(ttl := ExpiresIn(KeyTtlSeconds))
    ensures forall k :: k in m && k != oldKey && k != newKey ==> r[k] == m[k]
  {
    HSetOn(ExpireOn(m, newKey, KeyTtlSeconds), oldKey, Deactivation)
  }

  /** Rotates a key. Only an active key can be rotated; the new key is
      answered only when the transaction went through. */
  method RotateAPIKeyHandler(db: Redis, oldKey: string, rnd: Option<seq<byte>>, faults: set<Call>) returns (reply: Reply<string>)
    requires db.Valid()
    requires rnd.Some? ==> |rnd.value| == 16
    modifies db
    ensures db.Valid()
    ensures db.usage == old(db.usage) && db.buckets == old(db.buckets)
    ensures oldKey == "" ==> reply == Error(StatusBadRequest, "Old API key missing") && db.apiKeys == old(db.apiKeys)
    ensures oldKey != "" && (ReadHash in faults || !IsActive(old(db.HGetAll(oldKey)))) ==>
              reply == Error(StatusUnauthorized, "Old key invalid or revoked") && db.apiKeys == old(db.apiKeys)
    ensures oldKey != "" && ReadHash !in faults && IsActive(old(db.HGetAll(oldKey))) && rnd.None? ==>
              reply == Error(StatusInternalServerError, "Failed to generate new key") && db.apiKeys == old(db.apiKeys)
    ensures oldKey != "" && ReadHash !in faults && IsActive(old(db.HGetAll(oldKey))) && rnd.Some? && ExecTx in faults ==>
              reply == Error(StatusInternalServerError, "Key rotation failed") && db.apiKeys == old(db.apiKeys)
    ensures oldKey != "" && ReadHash !in faults && IsActive(old(db.HGetAll(oldKey))) && rnd.Some? && ExecTx !in faults ==>
              var newKey := HexEncode(rnd.value);
              if newKey in old(db.apiKeys) && old(db.apiKeys)[newKey].Str? then
                reply == Error(StatusInternalServerError, "Key rotation failed")
                && db.apiKeys == RotateOnString(old(db.apiKeys), oldKey, newKey)
              else
                reply == Ok(newKey) && db.apiKeys == RotateOn(old(db.apiKeys), oldKey, newKey)
  {
    if oldKey == "" {
      return Error(StatusBadRequest, "Old API key missing");
    }
    if ReadHash in faults {
      return Error(StatusUnauthorized, "Old key invalid or revoked");
    }
    var meta := db.HGetAll(oldKey);
    if meta.None? || Field(meta.value, "active") != "true" {
      return Error(StatusUnauthorized, "Old key invalid or revoked");
    }
    ActiveOrRevokedIsKnown(meta.value);
    var newKey := GenerateAPIKey(rnd);
    if newKey.None? {
      return Error(StatusInternalServerError, "Failed to generate new key");
    }
    if ExecTx in faults {
      return Error(StatusInternalServerError, "Key rotation failed");
    }
    ghost var before := db.apiKeys;
    if newKey.value in db.apiKeys && db.apiKeys[newKey.value].Str? {
      // the hash write on the new key fails; the rest of the transaction applies
      db.Expire(newKey.value, KeyTtlSeconds);
      HSetKeepsWellFormed(db.apiKeys, oldKey, Deactivation);
      db.HSet(oldKey, Deactivation);
      assert db.apiKeys == RotateOnString(before, oldKey, newKey.value);
      return Error(StatusInternalServerError, "Key rotation failed");
    }
    HSetKeepsWellFormed(db.apiKeys, newKey.value, meta.value);
    db.HSet(newKey.value, meta.value);
    db.Expire(newKey.value, KeyTtlSeconds);
    HSetKeepsWellFormed(db.apiKeys, oldKey, Deactivation);
    db.HSet(oldKey, Deactivation);
    assert db.apiKeys == RotateOn(before, oldKey, newKey.value);
    reply := Ok(newKey.value);
  }

  /** What a successful rotation to a different key does: the new key holds
      every field of the old record (so the same plan and creation time, and
      active "true") with a 30-day expiry; the old record changes only in
      `active`, which becomes "false", and keeps its expiry; no other record
      changes. */
  lemma RotateEffect(m: map<string, Entry>, oldKey: string, newKey: string)
    requires oldKey in m && m[oldKey].Hash? && Field(m[oldKey].fields, "active") == "true"
    requires newKey !in m || m[newKey].Hash?
    requires newKey != oldKey
    ensures var r := RotateOn(m, oldKey, newKey);
            && r.Keys == m.Keys + {newKey}
            && r[newKey].Hash? && r[newKey].ttl == ExpiresIn(KeyTtlSeconds)
            && (forall f :: f in m[oldKey].fields ==> f in r[newKey].fields && r[newKey].fields[f] == m[oldKey].fields[f])
            && Field(r[newKey].fields, "active") == "true"
            && r[oldKey] == Hash(m[oldKey].fields["active" := "false"], m[oldKey].ttl)
            && (forall k :: k in m && k != oldKey && k != newKey ==> r[k] == m[k])
  {
    var meta := m[oldKey].fields;
    var r1 := HSetOn(m, newKey, meta);
    var r2 := ExpireOn(r1, newKey, KeyTtlSeconds);
    var r := HSetOn(r2, oldKey, Deactivation);
    assert r2[oldKey] == m[oldKey];
    assert r[oldKey].fields == meta + Deactivation;
    assert meta + Deactivation == meta["active" := "false"];
    assert r[newKey] == r2[newKey];
    assert Field(r[newKey].fields, "active") == Field(meta, "active");
  }

  /** Rotating a key onto itself (the new random key equals the old one)
      answers success and leaves that key revoked. */
  lemma RotateOntoItself(m: map<string, Entry>, key: string)
    requires key in m && m[key].Hash?
    ensures IsRevoked(RotateOn(m, key, key)[key])
    ensures RotateOn(m, key, key)[key].ttl == ExpiresIn(KeyTtlSeconds)
  {
    assert RotateOn(m, key, key)[key].fields["active"] == "false";
  }

  /** Revokes a key: sets `active` to "false" whatever it was, keeping the
      other fields and the expiry. */
  method RevokeAPIKeyHandler(db: Redis, key: string, faults: set<Call>) returns (reply: Reply<string>)
    requires db.Valid()
    modifies db
    ensures db.Valid()
    ensures db.usage == old(db.usage) && db.buckets == old(db.buckets)
    ensures key == "" ==> reply == Error(StatusUnauthorized, "Missing API key") && db.apiKeys == old(db.apiKeys)
    ensures key != "" && (ReadHash in faults || !Known(old(db.HGetAll(key)))) ==>
              reply == Error(StatusUnauthorized, "Invalid API key") && db.apiKeys == old(db.apiKeys)
    ensures key != "" && ReadHash !in faults && Known(old(db.HGetAll(key))) ==>
              if WriteHash in faults then
                reply == Error(StatusInternalServerError, "Failed to revoke key") && db.apiKeys == old(db.apiKeys)
              else
                reply == Ok("API key revoked successfully") && db.apiKeys == HSetOn(old(db.apiKeys), key, Deactivation)
    ensures reply.Ok? ==> && key in db.apiKeys && IsRevoked(db.apiKeys[key])
                          && db.apiKeys[key] == Hash(old(db.apiKeys)[key].fields["active" := "false"], old(db.apiKeys)[key].ttl)
  {
    if key == "" {
      return Error(StatusUnauthorized, "Missing API key");
    }
    if ReadHash in faults {
      return Error(StatusUnauthorized, "Invalid API key");
    }
    var meta := db.HGetAll(key);
    if meta.None? || |meta.value| == 0 {
      return Error(StatusUnauthorized, "Invalid API key");
    }
    if WriteHash in faults {
      return Error(StatusInternalServerError, "Failed to revoke key");
    }
    HSetKeepsWellFormed(db.apiKeys, key, Deactivation);
    db.HSet(key, Deactivation);
    reply := Ok("API key revoked successfully");
  }

  /** Revoking is idempotent on the store. */
  lemma RevokeIdempotent(m: map<string, Entry>, key: string)
    requires key in m && m[key].Hash?
    ensures HSetOn(HSetOn(m, key, Deactivation), key, Deactivation) == HSetOn(m, key, Deactivation)
  {
    var once := HSetOn(m, key, Deactivation);
    assert once[key].fields + Deactivation == once[key].fields;
  }

  /** Revoking twice answers success both times and leaves the state of
      one revocation. */
  method RevokeTwice(db: Redis, key: string) returns (first: Reply<string>, second: Reply<string>)
    requires db.Valid() && key != "" && Known(db.HGetAll(key))
    modifies db
    ensures first == second == Ok("API key revoked successfully")
    ensures db.apiKeys == HSetOn(old(db.apiKeys), key, Deactivation)
  {
    first := RevokeAPIKeyHandler(db, key, {});
    ActiveOrRevokedIsKnown(db.apiKeys[key].fields);
    second := RevokeAPIKeyHandler(db, key, {});
    RevokeIdempotent(old(db.apiKeys), key);
  }

  /** Revocation is terminal for every write the service makes, except on
      the key a write issues: revoking and a rotation whose hash write failed
      revive nothing, and issuing or rotating onto a key revives at most that
      key (a random key that collides with a revoked one). */
  lemma RevocationIsTerminal(m: map<string, Entry>, oldKey: string, newKey: string, plan: string, createdAt: string)
    requires oldKey in m && m[oldKey].Hash?
    requires newKey !in m || m[newKey].Hash?
    requires plan in Plans
    ensures RevokedStayRevoked(m, HSetOn(m, oldKey, Deactivation), {})
    ensures RevokedStayRevoked(m, RotateOnString(m, oldKey, newKey), {})
    ensures RevokedStayRevoked(m, RotateOn(m, oldKey, newKey), {newKey})
    ensures RevokedStayRevoked(m, ExpireOn(HSetOn(m, newKey, IssuedFields(plan, createdAt)), newKey, KeyTtlSeconds), {newKey})
  {
    var revoked := HSetOn(m, oldKey, Deactivation);
    assert revoked[oldKey].fields["active"] == "false";
  }

  /** A revoked key that a newly issued key collides with becomes active
      again. */
  lemma IssuingOverRevokedKeyRevivesIt(m: map<string, Entry>, key: string, plan: string, createdAt: string)
    requires key in m && IsRevoked(m[key]) && plan in Plans
    ensures !RevokedStayRevoked(m, ExpireOn(HSetOn(m, key, IssuedFields(plan, createdAt)), key, KeyTtlSeconds), {})
  {
    var r := ExpireOn(HSetOn(m, key, IssuedFields(plan, createdAt)), key, KeyTtlSeconds);
    assert r[key].fields["active"] == "true";
  }

  // ------------------------------------------------------------ introspection

  /** The body of a usage answer. */
  datatype UsageReport = UsageReport(key: string, usageCount: int, plan: string, createdAt: string, active: string, expiresIn: Ttl)

  /** The body of a metadata answer: the stored fields and the key's TTL. */
  datatype MetadataReport = MetadataReport(fields: map<string, string>, expiresIn: Ttl)

  /** TTL(...).Val() on an existing key: its TTL, or the zero duration when
      the read reports an error. */
  function TtlReply(db: Redis, key: string, faults: set<Call>): (t: Ttl)
    reads db
    requires key in db.apiKeys
    ensures ReadTtl in faults ==> t == ExpiresIn(0)
    ensures ReadTtl !in faults ==> t == db.apiKeys[key].ttl
  {
    if ReadTtl in faults then ExpiresIn(0) else db.TtlOf(key)
  }

  /** Usage of an active key; a missing or unreadable counter reads as 0,
      and an unreadable TTL as a zero duration. */
  function UsageHandler(db: Redis, key: string, faults: set<Call>): (reply: Reply<UsageReport>)
    reads db
    ensures key == "" ==> reply == Error(StatusUnauthorized, "Missing API key")
    ensures key != "" && !reply.Ok? ==> reply == Error(StatusUnauthorized, "Invalid or revoked API key")
    ensures key != "" ==> (reply.Ok? <==> ReadHash !in faults && IsActive(db.HGetAll(key)))
    ensures reply.Ok? ==> && key in db.apiKeys && db.apiKeys[key].Hash?
                          && reply.body == UsageReport(key,
                                                       if ReadCounter !in faults && key in db.usage then db.usage[key] else 0,
                                                       Field(db.apiKeys[key].fields, "plan"),
                                                       Field(db.apiKeys[key].fields, "created_at"),
                                                       "true",
                                                       if ReadTtl in faults then ExpiresIn(0) else db.apiKeys[key].ttl)
  {
    if key == "" then Error(StatusUnauthorized, "Missing API key")
    else if ReadHash in faults then Error(StatusUnauthorized, "Invalid or revoked API key")
    else
      var meta := db.HGetAll(key);
      if meta.None? || Field(meta.value, "active") != "true" then Error(StatusUnauthorized, "Invalid or revoked API key")
      else
        ActiveOrRevokedIsKnown(meta.value);
        var count := if ReadCounter in faults then 0 else match db.GetCounter(key) case None => 0 case Some(n) => n;
        Ok(UsageReport(key, count, Field(meta.value, "plan"), Field(meta.value, "created_at"), Field(meta.value, "active"), TtlReply(db, key, faults)))
  }

  /** Metadata of any key with a non-empty record, revoked or not; an
      unreadable TTL is reported as a zero duration. */
  function MetadataHandler(db: Redis, key: string, faults: set<Call>): (reply: Reply<MetadataReport>)
    reads db
    ensures key == "" ==> reply == Error(StatusUnauthorized, "Missing API key")
    ensures key != "" && !reply.Ok? ==> reply == Error(StatusUnauthorized, "Invalid API key")
    ensures key != "" ==> (reply.Ok? <==> ReadHash !in faults && Known(db.HGetAll(key)))
    ensures reply.Ok? ==> && key in db.apiKeys && db.apiKeys[key].Hash?
                          && reply.body == MetadataReport(db.apiKeys[key].fields,
                                                          if ReadTtl in faults then ExpiresIn(0) else db.apiKeys[key].ttl)
  {
    if key == "" then Error(StatusUnauthorized, "Missing API key")
    else if ReadHash in faults then Error(StatusUnauthorized, "Invalid API key")
    else
      var meta := db.HGetAll(key);
      if meta.None? || |meta.value| == 0 then Error(StatusUnauthorized, "Invalid API key")
      else Ok(MetadataReport(meta.value, TtlReply(db, key, faults)))
  }

  /** A revoked key is refused by the usage route and still described by the
      metadata route. */
  lemma RevokedKeyIntrospection(db: Redis, key: string)
    requires key != "" && key in db.apiKeys && IsRevoked(db.apiKeys[key])
    ensures UsageHandler(db, key, {}) == Error(StatusUnauthorized, "Invalid or revoked API key")
    ensures MetadataHandler(db, key, {}).Ok?
  {
    ActiveOrRevokedIsKnown(db.apiKeys[key].fields);
  }

  /** Rotating an active key to a fresh one: the new key reports a usage of
      0 with the old plan and creation time, and the old key is refused. */
  method RotateThenInspect(db: Redis, oldKey: string, rnd: seq<byte>) returns (newKey: Reply<string>, report: Reply<UsageReport>)
    requires db.Valid() && |rnd| == 16
    requires oldKey != "" && IsActive(db.HGetAll(oldKey))
    requires HexEncode(rnd) != oldKey && HexEncode(rnd) !in db.apiKeys && HexEncode(rnd) !in db.usage
    modifies db
    ensures newKey == Ok(HexEncode(rnd))
    ensures report == Ok(UsageReport(HexEncode(rnd), 0,
                                     Field(old(db.apiKeys)[oldKey].fields, "plan"),
                                     Field(old(db.apiKeys)[oldKey].fields, "created_at"),
                                     "true", ExpiresIn(KeyTtlSeconds)))
    ensures UsageHandler(db, oldKey, {}) == Error(StatusUnauthorized, "Invalid or revoked API key")
  {
    newKey := RotateAPIKeyHandler(db, oldKey, Some(rnd), {});
    RotateEffect(old(db.apiKeys), oldKey, HexEncode(rnd));
    report := UsageHandler(db, HexEncode(rnd), {});
    RevokedKeyIntrospection(db, oldKey);
  }

  // ------------------------------------------------------------ bulk masking

  /** One item of a masking request: a type name and a value. */
  datatype MaskRequest = MaskRequest(kind: string, value: string)

  /** Masks every item in order; an item whose value its type rejects (or
      whose type is unknown) becomes "". */
  method MaskEach(reqs: seq<MaskRequest>) returns (resp: seq<string>)
    ensures |resp| == |reqs|
    ensures forall i :: 0 <= i < |reqs| ==> resp[i] == ApplyMask(reqs[i].kind, reqs[i].value).value
    ensures forall i :: 0 <= i < |reqs| ==> (resp[i] == "" <==> !ApplyMask(reqs[i].kind, reqs[i].value).ok)
  {
    resp := [];
    for j := 0 to |reqs|
      invariant |resp| == j
      invariant forall i :: 0 <= i < j ==> resp[i] == ApplyMask(reqs[i].kind, reqs[i].value).value
    {
      var masked := ApplyMask(reqs[j].kind, reqs[j].value);
      resp := resp + [masked.value];
    }
  }

  /** The single-value masking route; `body` is None when the request is
      not JSON. */
  function MaskHandler(body: Option<MaskRequest>): (reply: Reply<string>)
    ensures body.None? ==> reply == Error(StatusBadRequest, "Invalid JSON")
    ensures body.Some? ==> (reply.Ok? <==> ApplyMask(body.value.kind, body.value.value).ok)
    ensures body.Some? && reply.Error? ==> reply == Error(StatusBadRequest, "Invalid value for the specified type")
    ensures reply.Ok? ==> reply.body == ApplyMask(body.value.kind, body.value.value).value && |reply.body| >= 5
  {
    if body.None? then Error(StatusBadRequest, "Invalid JSON")
    else
      var m := ApplyMask(body.value.kind, body.value.value);
      if !m.ok then Error(StatusBadRequest, "Invalid value for the specified type") else Ok(m.value)
  }

  /** The validation route: whether the masking route would accept the
      same request. */
  function ValidateHandler(body: Option<MaskRequest>): (reply: Reply<bool>)
    ensures body.None? ==> reply == Error(StatusBadRequest, "Invalid JSON")
    ensures body.Some? ==> reply.Ok? && (reply.body <==> MaskHandler(body).Ok?)
  {
    if body.None? then Error(StatusBadRequest, "Invalid JSON")
    else Ok(ApplyMask(body.value.kind, body.value.value).ok)
  }

  /** The detection route; "" stands for the empty object answered when no
      rule accepts the value. A type it names is one the validation route
      accepts for the same value. */
  function DetectHandler(body: Option<string>): (reply: Reply<string>)
    ensures body.None? ==> reply == Error(StatusBadRequest, "Invalid JSON")
    ensures body.Some? ==> reply.Ok? && (reply.body == "" || reply.body in TypeOrder)
    ensures body.Some? && reply.body != "" ==> ValidateHandler(Some(MaskRequest(reply.body, body.value))) == Ok(true)
  {
    if body.None? then Error(StatusBadRequest, "Invalid JSON") else Ok(DetectType(body.value))
  }

  const BulkDenied := "Bulk masking is available only for Pro or Ultra plans"

  /** The bulk route: the plan header is checked before the body is parsed;
      `body` is None when it is not a JSON list of requests. */
  method BulkHandler(planLevel: string, body: Option<seq<MaskRequest>>) returns (reply: Reply<seq<string>>)
    ensures planLevel != "pro" && planLevel != "ultra" ==> reply == Error(StatusForbidden, BulkDenied)
    ensures (planLevel == "pro" || planLevel == "ultra") && body.None? ==> reply == Error(StatusBadRequest, "Invalid JSON")
    ensures (planLevel == "pro" || planLevel == "ultra") && body.Some? ==>
              && reply.Ok? && |reply.body| == |body.value|
              && forall i :: 0 <= i < |body.value| ==> reply.body[i] == ApplyMask(body.value[i].kind, body.value[i].value).value
  {
    if planLevel != "pro" && planLevel != "ultra" {
      return Error(StatusForbidden, BulkDenied);
    }
    if body.None? {
      return Error(StatusBadRequest, "Invalid JSON");
    }
    var resp := MaskEach(body.value);
    reply := Ok(resp);
  }

  // ------------------------------------------------------------ lemmas

  /** Decoding undoes encoding, so distinct random bytes give distinct keys. */
  lemma {:induction false} HexRoundTrip(bs: seq<byte>)
    ensures HexDecode(HexEncode(bs)) == Some(bs)
  {
    if bs != [] {
      var s := HexEncode(bs);
      assert s == [HexDigit(bs[0] as int / 16), HexDigit(bs[0] as int % 16)] + HexEncode(bs[1..]);
      assert s[2..] == HexEncode(bs[1..]);
      HexRoundTrip(bs[1..]);
      HexDigitPair(bs[0]);
      assert bs == [bs[0]] + bs[1..];
    }
  }

  /** The two digits written for one byte decode back to it. */
  lemma HexDigitPair(b: byte)
    ensures HexValue(HexDigit(b as int / 16)) == Some(b as int / 16)
    ensures HexValue(HexDigit(b as int % 16)) == Some(b as int % 16)
    ensures ((b as int / 16) * 16 + b as int % 16) as byte == b
  {
  }

  lemma KeysAreInjective(a: seq<byte>, b: seq<byte>)
    ensures HexEncode(a) == HexEncode(b) ==> a == b
  {
    HexRoundTrip(a);
    HexRoundTrip(b);
  }
}
