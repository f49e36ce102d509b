/** app/services/session_service.py: login sessions in Redis. A session is the JSON snapshot
    of the user's public view stored under "session:<id>" with a sliding time-to-live. */
module SessionService {
  import opened Wrappers
  import opened Strings
  import opened Uuids
  import opened Payloads
  import opened UserSchemas
  import opened Failures

  /** `TIME_TO_SESSION = 90 * 60`: an hour and a half, in seconds. */
  const TimeToSession: nat := 90 * 60

  const SessionPrefix: string := "session:"

  /** The Redis commands the service issues, recorded in order. */
  datatype Command =
    | SetExCmd(key: string, seconds: nat, value: string)
    | GetCmd(key: string)
    | ExpireCmd(key: string, seconds: nat)
    | ExistsCmd(key: string)
    | DelCmd(key: string)

  /** The Redis keyspace: each key's value and its remaining time-to-live in seconds. Expiry
      itself is the server removing a key from outside this model. */
  class Redis {
    var data: map<string, string>
    var ttl: map<string, nat>
    ghost var log: seq<Command>

    /** Only keys that exist have a time-to-live. */
    ghost predicate Valid()
      reads this
    {
      ttl.Keys == data.Keys
    }

    constructor ()
      ensures Valid() && data == map[] && ttl == map[] && log == []
    {
      data, ttl, log := map[], map[], [];
    }

    method SetEx(key: string, seconds: nat, value: string)
      requires Valid()
      modifies this
      ensures Valid()
      ensures data == old(data)[key := value] && ttl == old(ttl)[key := seconds]
      ensures log == old(log) + [SetExCmd(key, seconds, value)]
    {
      data, ttl := data[key := value], ttl[key := seconds];
      log := log + [SetExCmd(key, seconds, value)];
    }

    method Get(key: string) returns (v: Option<string>)
      modifies this`log
      ensures v == (if key in data then Some(data[key]) else None)
      ensures log == old(log) + [GetCmd(key)]
    {
      v := if key in data then Some(data[key]) else None;
      log := log + [GetCmd(key)];
    }

    /** EXPIRE sets the time-to-live of an existing key and reports whether it existed. */
    method Expire(key: string, seconds: nat) returns (existed: bool)
      requires Valid()
      modifies this`ttl, this`log
      ensures Valid()
      ensures existed <==> key in data
      ensures ttl == if key in data then old(ttl)[key := seconds] else old(ttl)
      ensures log == old(log) + [ExpireCmd(key, seconds)]
    {
      existed := key in data;
      if existed {
        ttl := ttl[key := seconds];
      }
      log := log + [ExpireCmd(key, seconds)];
    }

    /** EXISTS counts the named keys that are present. */
    method Exists(key: string) returns (n: nat)
      modifies this`log
      ensures n == if key in data then 1 else 0
      ensures log == old(log) + [ExistsCmd(key)]
    {
      n := if key in data then 1 else 0;
      log := log + [ExistsCmd(key)];
    }

    /** DEL removes the key and counts what it removed. */
    method Delete(key: string) returns (n: nat)
      requires Valid()
      modifies this
      ensures Valid()
      ensures data == old(data) - {key} && ttl == old(ttl) - {key}
      ensures n == if key in old(data) then 1 else 0
      ensures log == old(log) + [DelCmd(key)]
    {
      n := if key in data then 1 else 0;
      data, ttl := data - {key}, ttl - {key};
      log := log + [DelCmd(key)];
    }
  }

  /** `json.dumps` and `json.loads`; the second may fail. */
  datatype JsonCodec = JsonCodec(dumps: Json -> string, loads: string -> Option<Json>)

  /** What is assumed of the codec: decoding inverts encoding, and the text is never empty. */
  ghost predicate Lossless(c: JsonCodec) {
    forall j :: c.loads(c.dumps(j)) == Some(j) && c.dumps(j) != ""
  }

  /** `_key_for_session`: `f"session:{session_id}"`, the id in its canonical lowercase form. */
  function KeyForSession(id: Uuid): (key: string)
    ensures StartsWith(key, SessionPrefix) && key[|SessionPrefix|..] == UuidString(id)
  {
    SessionPrefix + UuidString(id)
  }

  /** Distinct sessions never share a key, and the id can be read back from its key. */
  lemma KeyForSessionInjective(a: Uuid, b: Uuid)
    ensures KeyForSession(a) == KeyForSession(b) ==> a == b
    ensures ParseUuid(KeyForSession(a)[|SessionPrefix|..]) == Some(a)
  {
    ParseUuidString(a);
    if KeyForSession(a) == KeyForSession(b) {
      assert KeyForSession(a)[|SessionPrefix|..] == KeyForSession(b)[|SessionPrefix|..];
      UuidStringInjective(a, b);
    }
  }

  /** The value stored under a key, as `redis.get` returns it. */
  function Stored(data: map<string, string>, key: string): Option<string> {
    if key in data then Some(data[key]) else None
  }

  /** What `get_user_id_from_session` makes of a stored value: nothing for an absent or
      empty one, otherwise `json.loads` followed by `UserRead.model_validate`. */
  function Restore(stored: Option<string>, json: JsonCodec, isEmail: EmailCheck): (r: Result<Option<UserRead>, Exc>)
    ensures r == Ok(None) <==> stored.None? || stored.value == ""
    ensures r.Err? ==> r.error == JsonDecode || r.error.Validation?
    ensures r.Err? ==> stored.Some? && stored.value != ""
    ensures r.Err? && r.error.Validation? ==> json.loads(stored.value).Some? && r.error.errors != {}
    ensures stored.Some? && stored.value != "" && json.loads(stored.value).None? ==> r == Err(JsonDecode)
    ensures stored.Some? && stored.value != "" && json.loads(stored.value).Some?
            && ParseUserRead(isEmail, json.loads(stored.value).value).Err? ==>
      r == Err(Validation(ParseUserRead(isEmail, json.loads(stored.value).value).error))
    ensures stored.Some? && stored.value != "" && json.loads(stored.value).Some?
            && ParseUserRead(isEmail, json.loads(stored.value).value).Ok? ==>
      r == Ok(Some(ParseUserRead(isEmail, json.loads(stored.value).value).value))
    ensures r.Ok? && r.value.Some? ==>
      && stored.Some? && json.loads(stored.value).Some?
      && ParseUserRead(isEmail, json.loads(stored.value).value) == Ok(r.value.value)
  {
    if stored.None? || stored.value == "" then Ok(None)
    else
      match json.loads(stored.value)
      case None => Err(JsonDecode)
      case Some(j) =>
        match ParseUserRead(isEmail, j)
        case Ok(v) => Ok(Some(v))
        case Err(es) => Err(Validation(es))
  }

  /** A snapshot written by `create_session` reads back as the same view. */
  lemma SnapshotRoundTrip(json: JsonCodec, isEmail: EmailCheck, v: UserRead)
    requires Lossless(json) && isEmail(v.email)
    ensures Restore(Some(json.dumps(DumpRead(v))), json, isEmail) == Ok(Some(v))
  {
    ReadRoundTrip(isEmail, v);
  }

  class SessionService {
    const redis: Redis
    const json: JsonCodec
    const isEmail: EmailCheck

    constructor (redis: Redis, json: JsonCodec, isEmail: EmailCheck)
      ensures this.redis == redis && this.json == json && this.isEmail == isEmail
    {
      this.redis := redis;
      this.json := json;
      this.isEmail := isEmail;
    }

    /** `create_session`: the fresh id is supplied by the caller, standing for `uuid4()`. */
    method CreateSession(data: UserRead, sessionId: Uuid) returns (id: Uuid)
      requires redis.Valid()
      modifies redis
      ensures redis.Valid()
      ensures id == sessionId
      ensures redis.data == old(redis.data)[KeyForSession(id) := json.dumps(DumpRead(data))]
      ensures redis.ttl == old(redis.ttl)[KeyForSession(id) := TimeToSession]
      ensures redis.log == old(redis.log) + [SetExCmd(KeyForSession(id), TimeToSession, json.dumps(DumpRead(data)))]
    {
      redis.SetEx(KeyForSession(sessionId), TimeToSession, json.dumps(DumpRead(data)));
      id := sessionId;
    }

    /** `get_user_id_from_session`: a present, non-empty value has its time-to-live reset
        before it is decoded, so a snapshot that fails to decode has still been renewed. */
    method GetUserIdFromSession(sessionId: Uuid) returns (r: Result<Option<UserRead>, Exc>)
      requires redis.Valid()
      modifies redis`ttl, redis`log
      ensures redis.Valid()
      ensures r == Restore(Stored(redis.data, KeyForSession(sessionId)), json, isEmail)
      ensures var key := KeyForSession(sessionId);
        if key in redis.data && redis.data[key] != "" then
          && redis.ttl == old(redis.ttl)[key := TimeToSession]
          && redis.log == old(redis.log) + [GetCmd(key), ExpireCmd(key, TimeToSession)]
        else
          && redis.ttl == old(redis.ttl)
          && redis.log == old(redis.log) + [GetCmd(key)]
    {
      var key := KeyForSession(sessionId);
      var stored := redis.Get(key);
      if stored.None? || stored.value == "" {
        return Ok(None);
      }
      var _ := redis.Expire(key, TimeToSession);
      r := Restore(stored, json, isEmail);
    }

    /** `delete_session`: DEL is issued only when EXISTS found the key. */
    method DeleteSession(sessionId: Uuid)
      requires redis.Valid()
      modifies redis
      ensures redis.Valid()
      ensures var key := KeyForSession(sessionId);
        && redis.data == old(redis.data) - {key} && redis.ttl == old(redis.ttl) - {key}
        && redis.log == old(redis.log) + (if key in old(redis.data) then [ExistsCmd(key), DelCmd(key)] else [ExistsCmd(key)])
    {
      var key := KeyForSession(sessionId);
      var n := redis.Exists(key);
      if n > 0 {
        var _ := redis.Delete(key);
      } else {
        assert redis.data - {key} == redis.data && redis.ttl - {key} == redis.ttl;
      }
    }
  }

  /** A session reads back as the view it was created with until it is deleted; afterwards it
      reads as absent. */
  method SessionLifecycle(service: SessionService, v: UserRead, sessionId: Uuid)
    returns (whileOpen: Result<Option<UserRead>, Exc>, afterDelete: Result<Option<UserRead>, Exc>)
    requires Lossless(service.json) && service.isEmail(v.email) && service.redis.Valid()
    modifies service.redis
    ensures whileOpen == Ok(Some(v)) && afterDelete == Ok(None)
    ensures KeyForSession(sessionId) !in service.redis.data
  {
    var id := service.CreateSession(v, sessionId);
    SnapshotRoundTrip(service.json, service.isEmail, v);
    whileOpen := service.GetUserIdFromSession(id);
    service.DeleteSession(id);
    afterDelete := service.GetUserIdFromSession(id);
  }
}
