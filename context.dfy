/** app/graphql/context.py: the per-request context. It builds the services lazily, sets the
    session cookie, and authenticates the request from that cookie through a fixed sequence
    of guards, binding `user` only when every guard passes. */
module Context {
  import opened Wrappers
  import opened Strings
  import opened Uuids
  import opened Payloads
  import opened Validators
  import opened UserSchemas
  import opened UserModel
  import opened DbSession
  import opened Security
  import opened Exceptions
  import opened Failures
  import opened UserService
  import opened UserAuthService
  import opened SessionService

  /** A `Set-Cookie` header as `response.set_cookie` writes it. */
  datatype Cookie = Cookie(key: string, value: string, httponly: bool, secure: bool,
                           maxAge: int, samesite: string, path: string)

  const SessionCookieName: string := "session"

  /** The cookie `set_cookie` writes: it expires 30 seconds before the stored session, is
      hidden from scripts, sent only over TLS and only to this site. */
  function SessionCookie(id: Uuid): (c: Cookie)
    ensures c.key == SessionCookieName && ParseUuid(c.value) == Some(id)
    ensures c.maxAge == 5370 && 0 < c.maxAge < TimeToSession
    ensures c.httponly && c.secure && c.samesite == "strict" && c.path == "/"
  {
    ParseUuidString(id);
    Cookie(SessionCookieName, UuidString(id), true, true, TimeToSession - 30, "strict", "/")
  }

  /** The two cookie guards of `authenticate_user`: a missing or empty cookie is refused,
      one that does not parse as a UUID counts as an expired session. */
  function CookieGuard(cookies: map<string, string>): (r: Result<Uuid, Exc>)
    ensures r == Err(App(PermissionDeniedError())) <==> !Truthy(Stored(cookies, SessionCookieName))
    ensures r.Ok? <==>
      Truthy(Stored(cookies, SessionCookieName)) && ParseUuid(cookies[SessionCookieName]).Some?
    ensures r.Ok? ==> r.value == ParseUuid(cookies[SessionCookieName]).value
    ensures r.Err? ==> r.error == App(PermissionDeniedError()) || r.error == App(ExpiredSessionError())
  {
    var c := Stored(cookies, SessionCookieName);
    if !Truthy(c) then Err(App(PermissionDeniedError()))
    else if !IsUuid4(VStr(c.value)) then Err(App(ExpiredSessionError()))
    else Ok(ParseUuid(c.value).value)
  }

  /** `authenticate_user` as a function of the request cookies, the Redis keyspace and the
      table: no cookie, then a malformed one, then no stored session, then a vanished user. */
  function AuthSpec(cookies: map<string, string>, store: map<string, string>, rows: Table,
                    json: JsonCodec, isEmail: EmailCheck): (r: Result<User, Exc>)
    ensures CookieGuard(cookies).Err? ==> r == Err(CookieGuard(cookies).error)
    ensures CookieGuard(cookies).Ok? && Restore(Stored(store, KeyForSession(CookieGuard(cookies).value)), json, isEmail) == Ok(None) ==>
      r == Err(App(ExpiredSessionError()))
    ensures CookieGuard(cookies).Ok? ==>
      var snapshot := Restore(Stored(store, KeyForSession(CookieGuard(cookies).value)), json, isEmail);
      && (snapshot.Err? ==> r == Err(snapshot.error))
      && (snapshot.Ok? && snapshot.value.Some? ==>
            r == if snapshot.value.value.id in rows then Ok(rows[snapshot.value.value.id])
                 else Err(App(UserNotFoundError())))
    ensures r.Ok? ==>
      && CookieGuard(cookies).Ok?
      && var snapshot := Restore(Stored(store, KeyForSession(CookieGuard(cookies).value)), json, isEmail);
      && snapshot.Ok? && snapshot.value.Some?
      && snapshot.value.value.id in rows && r.value == rows[snapshot.value.value.id]
    ensures r.Err? ==>
      || r.error == App(PermissionDeniedError()) || r.error == App(ExpiredSessionError())
      || r.error == App(UserNotFoundError()) || r.error == JsonDecode || r.error.Validation?
  {
    match CookieGuard(cookies)
    case Err(x) => Err(x)
    case Ok(id) => SnapshotUser(Restore(Stored(store, KeyForSession(id)), json, isEmail), rows)
  }

  /** Once the cookie guards pass, authentication is the snapshot's outcome. */
  lemma AuthSpecAfterGuards(cookies: map<string, string>, store: map<string, string>, rows: Table,
                            json: JsonCodec, isEmail: EmailCheck)
    requires CookieGuard(cookies).Ok?
    ensures AuthSpec(cookies, store, rows, json, isEmail)
      == SnapshotUser(Restore(Stored(store, KeyForSession(CookieGuard(cookies).value)), json, isEmail), rows)
  {
  }

  /** The guards after the session read: a decoding failure as is, an absent session, then
      the user lookup. */
  function SnapshotUser(snapshot: Result<Option<UserRead>, Exc>, rows: Table): Result<User, Exc> {
    match snapshot
    case Err(x) => Err(x)
    case Ok(None) => Err(App(ExpiredSessionError()))
    case Ok(Some(v)) => if v.id in rows then Ok(rows[v.id]) else Err(App(UserNotFoundError()))
  }

  /** A request carrying the cookie of a session created at login authenticates as that
      session's user, as the table holds it now. */
  lemma LoggedInRequestAuthenticates(id: Uuid, u: User, store: map<string, string>, rows: Table,
                                     json: JsonCodec, isEmail: EmailCheck)
    requires Lossless(json) && isEmail(u.email) && u.id in rows && rows[u.id] == u
    requires KeyForSession(id) in store && store[KeyForSession(id)] == json.dumps(DumpRead(View(u)))
    ensures AuthSpec(map[SessionCookieName := SessionCookie(id).value], store, rows, json, isEmail) == Ok(u)
  {
    ParseUuidString(id);
    SnapshotRoundTrip(json, isEmail, View(u));
  }

  /** A session whose user was deleted afterwards fails with `UserNotFoundError`; once the
      session is gone the same cookie fails with `ExpiredSessionError`. */
  lemma DeletedUserOrSession(id: Uuid, v: UserRead, store: map<string, string>, rows: Table,
                             json: JsonCodec, isEmail: EmailCheck)
    requires Lossless(json) && isEmail(v.email) && v.id !in rows
    requires KeyForSession(id) in store && store[KeyForSession(id)] == json.dumps(DumpRead(v))
    ensures AuthSpec(map[SessionCookieName := SessionCookie(id).value], store, rows, json, isEmail)
      == Err(App(UserNotFoundError()))
    ensures AuthSpec(map[SessionCookieName := SessionCookie(id).value], store - {KeyForSession(id)}, rows, json, isEmail)
      == Err(App(ExpiredSessionError()))
  {
    ParseUuidString(id);
    SnapshotRoundTrip(json, isEmail, v);
  }

  class Context {
    const session: Session
    const redis: Redis
    const crypto: Crypto
    const json: JsonCodec
    const isEmail: EmailCheck
    const cookies: map<string, string>
    var responseCookies: seq<Cookie>
    var user: Option<User>
    var userService: Option<UserService>
    var userAuthService: Option<UserAuthService>
    var sessionService: Option<SessionService>

    /** Every service built so far works on this request's session, store and collaborators. */
    ghost predicate Valid()
      reads this
    {
      && (userService.Some? ==>
            userService.value.session == session && userService.value.crypto == crypto
            && userService.value.repository.session == session)
      && (userAuthService.Some? ==>
            userAuthService.value.session == session && userAuthService.value.crypto == crypto
            && userAuthService.value.repository.session == session)
      && (sessionService.Some? ==>
            sessionService.value.redis == redis && sessionService.value.json == json
            && sessionService.value.isEmail == isEmail)
    }

    constructor (session: Session, redis: Redis, crypto: Crypto, json: JsonCodec,
                 isEmail: EmailCheck, cookies: map<string, string>)
      ensures Valid()
      ensures this.session == session && this.redis == redis && this.crypto == crypto
      ensures this.json == json && this.isEmail == isEmail && this.cookies == cookies
      ensures user.None? && responseCookies == []
      ensures userService.None? && userAuthService.None? && sessionService.None?
    {
      this.session := session;
      this.redis := redis;
      this.crypto := crypto;
      this.json := json;
      this.isEmail := isEmail;
      this.cookies := cookies;
      responseCookies := [];
      user := None;
      userService, userAuthService, sessionService := None, None, None;
    }

    /** The `user_service` property: built on first access, the same instance afterwards. */
    method GetUserService() returns (s: UserService)
      requires Valid()
      modifies this`userService
      ensures Valid() && userService == Some(s)
      ensures old(userService).Some? ==> s == old(userService).value
      ensures old(userService).None? ==> fresh(s)
    {
      if userService.None? {
        var created := new UserService(session, crypto);
        userService := Some(created);
      }
      s := userService.value;
    }

    method GetUserAuthService() returns (s: UserAuthService)
      requires Valid()
      modifies this`userAuthService
      ensures Valid() && userAuthService == Some(s)
      ensures old(userAuthService).Some? ==> s == old(userAuthService).value
      ensures old(userAuthService).None? ==> fresh(s)
    {
      if userAuthService.None? {
        var created := new UserAuthService(session, crypto);
        userAuthService := Some(created);
      }
      s := userAuthService.value;
    }

    method GetSessionService() returns (s: SessionService)
      requires Valid()
      modifies this`sessionService
      ensures Valid() && sessionService == Some(s)
      ensures old(sessionService).Some? ==> s == old(sessionService).value
      ensures old(sessionService).None? ==> fresh(s)
    {
      if sessionService.None? {
        var created := new SessionService(redis, json, isEmail);
        sessionService := Some(created);
      }
      s := sessionService.value;
    }

    /** `set_cookie`: the max-age is read from the session service, built here if need be. */
    method SetCookie(id: Uuid)
      requires Valid()
      modifies this`responseCookies, this`sessionService
      ensures Valid() && sessionService.Some?
      ensures old(sessionService).Some? ==> sessionService == old(sessionService)
      ensures responseCookies == old(responseCookies) + [SessionCookie(id)]
    {
      var _ := GetSessionService();
      responseCookies := responseCookies + [
        Cookie(SessionCookieName, UuidString(id), true, true, TimeToSession - 30, "strict", "/")];
    }

    /** `authenticate_user`. A malformed cookie is refused before Redis is contacted; a stored
        session has its time-to-live renewed by the read even when a later guard fails. */
    method AuthenticateUser() returns (r: Result<bool, Exc>)
      requires Valid() && redis.Valid()
      modifies this`user, this`sessionService, redis`ttl, redis`log
      ensures Valid() && redis.Valid()
      ensures var spec := AuthSpec(cookies, redis.data, session.rows, json, isEmail);
        && r == (if spec.Ok? then Ok(true) else Err(spec.error))
        && user == (if spec.Ok? then Some(spec.value) else old(user))
      ensures CookieGuard(cookies).Err? ==> redis.ttl == old(redis.ttl) && redis.log == old(redis.log)
      ensures CookieGuard(cookies).Ok? ==>
        var key := KeyForSession(CookieGuard(cookies).value);
        if key in redis.data && redis.data[key] != "" then
          && redis.ttl == old(redis.ttl)[key := TimeToSession]
          && redis.log == old(redis.log) + [GetCmd(key), ExpireCmd(key, TimeToSession)]
        else
          && redis.ttl == old(redis.ttl)
          && redis.log == old(redis.log) + [GetCmd(key)]
    {
      var token := CookieGuard(cookies);
      match token {
        case Err(x) =>
          r := Err(x);
        case Ok(id) =>
          var found := UserForSession(id);
          if found.Ok? {
            user := Some(found.value);
            r := Ok(true);
          } else {
            r := Err(found.error);
          }
      }
    }

    /** The session read through the lazily built session service, then the user lookup. */
    method UserForSession(id: Uuid) returns (r: Result<User, Exc>)
      requires Valid() && redis.Valid()
      modifies this`sessionService, redis`ttl, redis`log
      ensures Valid() && redis.Valid()
      ensures r == SnapshotUser(Restore(Stored(redis.data, KeyForSession(id)), json, isEmail), session.rows)
      ensures var key := KeyForSession(id);
        if key in redis.data && redis.data[key] != "" then
          && redis.ttl == old(redis.ttl)[key := TimeToSession]
          && redis.log == old(redis.log) + [GetCmd(key), ExpireCmd(key, TimeToSession)]
        else
          && redis.ttl == old(redis.ttl)
          && redis.log == old(redis.log) + [GetCmd(key)]
    {
      var service := GetSessionService();
      var snapshot := service.GetUserIdFromSession(id);
      match snapshot {
        case Err(x) =>
          r := Err(x);
        case Ok(None) =>
          r := Err(App(ExpiredSessionError()));
        case Ok(Some(v)) =>
          var found := session.Get(v.id);
          if found.None? {
            r := Err(App(UserNotFoundError()));
          } else {
            r := Ok(found.value);
          }
      }
    }
  }
}
