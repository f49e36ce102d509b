/** app/services/user_service.py: account creation, update, lookup and deletion, each inside
    one transaction that commits on success, rolls back on any error, and translates a unique
    violation on email or username into the application's conflict errors.

    Each operation has a specification function from the committed table to the result and
    the new table; the class methods follow the source's steps against the session and are
    proved to agree with it. */
module UserService {
  import opened Wrappers
  import opened Strings
  import opened Uuids
  import opened UserSchemas
  import opened UserModel
  import opened DbSession
  import opened UserRepository
  import opened Security
  import opened Exceptions
  import opened Failures

  datatype Outcome<T> = Outcome(result: Result<T, Exc>, table: Table)

  /** How a failed flush or commit surfaces: SQLAlchemy wraps integrity errors as
      `IntegrityError`, the rest as other database errors; both carry the engine's text. */
  function DbExc(e: DbError): (x: Exc)
    ensures x.Integrity? <==> IsIntegrityError(e)
    ensures x.Integrity? || x.Database?
  {
    if IsIntegrityError(e) then Integrity(ErrorText(e)) else Database(ErrorText(e))
  }

  /** The `except IntegrityError` arm of `_transaction`: the email test comes first, and each
      test needs a truthy value and the index name anywhere in the error text. */
  function Translate(x: Exc, email: Option<string>, username: Option<string>): (r: Exc)
    ensures x.Integrity? && Truthy(email) && Contains(x.text, EmailIndex) ==>
      r == App(DuplicateEmailError(email.value))
    ensures x.Integrity? && !(Truthy(email) && Contains(x.text, EmailIndex))
            && Truthy(username) && Contains(x.text, UsernameIndex) ==>
      r == App(DuplicateUsernameError(username.value))
    ensures x.Integrity? && !(Truthy(email) && Contains(x.text, EmailIndex))
            && !(Truthy(username) && Contains(x.text, UsernameIndex)) ==>
      r == x
    ensures !x.Integrity? ==> r == x
  {
    match x
    case Integrity(text) =>
      if Truthy(email) && Contains(text, EmailIndex) then App(DuplicateEmailError(email.value))
      else if Truthy(username) && Contains(text, UsernameIndex) then App(DuplicateUsernameError(username.value))
      else x
    case _ => x
  }

  /** A flush outcome as the body of a transaction sees it. */
  function FlushFailure(e: Option<DbError>): Result<(), Exc> {
    match e
    case None => Ok(())
    case Some(err) => Err(DbExc(err))
  }

  /** The record `create_user` adds, as it reads once written. */
  function Created(crypto: Crypto, data: UserCreate, newId: Uuid): User {
    User(newId, data.name, data.username, data.email, crypto.hash(data.password), false)
  }

  /** The unsaved `UserModel(...)` of `create_user`: `is_master` is left to its default. */
  function NewRecord(crypto: Crypto, data: UserCreate, newId: Uuid): NewUser {
    NewUser(newId, Some(data.name), Some(data.username), Some(data.email),
            Some(crypto.hash(data.password)), None)
  }

  lemma ApplyAllSingle(t: Table, c: Change)
    ensures ApplyAll(t, [c]) == ApplyChange(t, c)
  {
    assert [c][..0] == [];
  }

  function CreateSpec(t: Table, crypto: Crypto, data: UserCreate, newId: Uuid): (o: Outcome<UserRead>)
    ensures WellFormed(t) ==> WellFormed(o.table)
    ensures o.result.Err? ==> o.table == t
    ensures o.result.Ok? <==>
      && newId !in t && Fits(Created(crypto, data, newId))
      && !EmailTaken(t, data.email, newId) && !UsernameTaken(t, data.username, newId)
    ensures o.result.Ok? ==>
      && o.table == t[newId := Created(crypto, data, newId)]
      && o.result.value == View(Created(crypto, data, newId))
  {
    match ApplyChange(t, Insert(NewRecord(crypto, data, newId)))
    case Err(e) => Outcome(Err(Translate(DbExc(e), Some(data.email), Some(data.username))), t)
    case Ok(t') => Outcome(Ok(View(t'[newId])), t')
  }

  /** The fields `model_dump(exclude_unset=True, exclude_none=True)` yields, in declaration
      order; the password is always present. */
  datatype UpdateField = FPassword | FName | FUsername | FEmail

  function DumpUpdate(d: UserUpdate): (items: seq<(UpdateField, string)>)
    ensures |items| >= 1 && items[0] == (FPassword, d.password)
  {
    [(FPassword, d.password)]
    + (if d.name.Some? then [(FName, d.name.value)] else [])
    + (if d.username.Some? then [(FUsername, d.username.value)] else [])
    + (if d.email.Some? then [(FEmail, d.email.value)] else [])
  }

  /** `setattr(user, field, value)` on a mapped column. */
  function SetAttr(u: User, f: UpdateField, v: string): User
    requires f != FPassword
  {
    match f
    case FName => u.(name := v)
    case FUsername => u.(username := v)
    case FEmail => u.(email := v)
  }

  /** The loop of `update_user` over a prefix of the dumped items. */
  function SetAll(u: User, items: seq<(UpdateField, string)>): User
    decreases |items|
  {
    if items == [] then u
    else
      var w := SetAll(u, items[..|items| - 1]);
      var last := items[|items| - 1];
      if last.0 == FPassword then w else SetAttr(w, last.0, last.1)
  }

  /** The record after an update: each supplied field replaces the stored one; the id, the
      password hash and `is_master` are never touched. */
  function Patched(u: User, d: UserUpdate): (r: User)
    ensures r.id == u.id && r.hashedPassword == u.hashedPassword && r.isMaster == u.isMaster
    ensures r.name == (if d.name.Some? then d.name.value else u.name)
    ensures r.username == (if d.username.Some? then d.username.value else u.username)
    ensures r.email == (if d.email.Some? then d.email.value else u.email)
  {
    u.(name := d.name.GetOr(u.name), username := d.username.GetOr(u.username), email := d.email.GetOr(u.email))
  }

  lemma SetAllPrefix(u: User, items: seq<(UpdateField, string)>, i: nat)
    requires i < |items|
    ensures SetAll(u, items[..i + 1]) ==
      if items[i].0 == FPassword then SetAll(u, items[..i]) else SetAttr(SetAll(u, items[..i]), items[i].0, items[i].1)
  {
    assert items[..i + 1][..i] == items[..i];
  }

  lemma SetAllSnoc(u: User, items: seq<(UpdateField, string)>, x: (UpdateField, string))
    ensures SetAll(u, items + [x]) ==
      if x.0 == FPassword then SetAll(u, items) else SetAttr(SetAll(u, items), x.0, x.1)
  {
    assert (items + [x])[..|items|] == items;
  }

  /** Running the loop over all the dumped items gives the patched record. */
  lemma SetAllDumpIsPatched(u: User, d: UserUpdate)
    ensures SetAll(u, DumpUpdate(d)) == Patched(u, d)
  {
    var a := [(FPassword, d.password)];
    var b := a + (if d.name.Some? then [(FName, d.name.value)] else []);
    var c := b + (if d.username.Some? then [(FUsername, d.username.value)] else []);
    var e := c + (if d.email.Some? then [(FEmail, d.email.value)] else []);
    assert DumpUpdate(d) == e;
    SetAllSnoc(u, [], a[0]);
    assert [] + [a[0]] == a;
    var ub := u.(name := d.name.GetOr(u.name));
    var uc := ub.(username := d.username.GetOr(u.username));
    if d.name.Some? { SetAllSnoc(u, a, (FName, d.name.value)); } else { assert b == a; }
    assert SetAll(u, b) == ub;
    if d.username.Some? { SetAllSnoc(u, b, (FUsername, d.username.value)); } else { assert c == b; }
    assert SetAll(u, c) == uc;
    if d.email.Some? { SetAllSnoc(u, c, (FEmail, d.email.value)); } else { assert e == c; }
  }

  /** The `for field, value in ...: setattr(...)` loop of `update_user`. */
  method ApplyUpdate(u: User, data: UserUpdate) returns (r: User)
    ensures r == Patched(u, data)
  {
    var items := DumpUpdate(data);
    r := u;
    var i := 0;
    while i < |items|
      invariant 0 <= i <= |items|
      invariant r == SetAll(u, items[..i])
    {
      SetAllPrefix(u, items, i);
      var (field, value) := items[i];
      if field != FPassword {
        r := SetAttr(r, field, value);
      }
      i := i + 1;
    }
    assert items[..i] == items;
    SetAllDumpIsPatched(u, data);
  }

  function UpdateSpec(t: Table, crypto: Crypto, id: Uuid, data: UserUpdate): (o: Outcome<UserRead>)
    requires WellFormed(t)
    ensures WellFormed(o.table)
    ensures o.result.Err? ==> o.table == t
    ensures id !in t ==> o.result == Err(App(UserNotFoundError()))
    ensures id in t && !crypto.verify(data.password, t[id].hashedPassword) ==>
      o.result == Err(App(InvalidCredentialsError()))
    ensures o.result.Ok? <==>
      && id in t && crypto.verify(data.password, t[id].hashedPassword)
      && Fits(Patched(t[id], data))
      && !EmailTaken(t, Patched(t[id], data).email, id)
      && !UsernameTaken(t, Patched(t[id], data).username, id)
    ensures o.result.Ok? ==>
      && o.table == t[id := Patched(t[id], data)]
      && o.result.value == View(Patched(t[id], data))
  {
    if id !in t then Outcome(Err(App(UserNotFoundError())), t)
    else if !crypto.verify(data.password, t[id].hashedPassword) then Outcome(Err(App(InvalidCredentialsError())), t)
    else
      match ApplyChange(t, Update(Patched(t[id], data)))
      case Err(e) => Outcome(Err(Translate(DbExc(e), data.email, data.username)), t)
      case Ok(t') => Outcome(Ok(View(t'[id])), t')
  }

  function GetSpec(t: Table, id: Uuid): (o: Outcome<UserRead>)
    ensures o.table == t
    ensures o.result.Ok? <==> id in t
    ensures o.result.Ok? ==> o.result.value == View(t[id])
    ensures o.result.Err? ==> o.result.error == App(UserNotFoundError())
  {
    if id !in t then Outcome(Err(App(UserNotFoundError())), t) else Outcome(Ok(View(t[id])), t)
  }

  function DeleteSpec(t: Table, crypto: Crypto, id: Uuid, data: UserDelete): (o: Outcome<()>)
    requires WellFormed(t)
    ensures WellFormed(o.table)
    ensures id !in t ==> o.result == Err(App(UserNotFoundError()))
    ensures id in t && !crypto.verify(data.password, t[id].hashedPassword) ==>
      o.result == Err(App(InvalidCredentialsError()))
    ensures o.result.Ok? <==> id in t && crypto.verify(data.password, t[id].hashedPassword)
    ensures o.result.Err? ==> o.table == t
    ensures o.result.Ok? ==> id !in o.table && o.table.Keys == t.Keys - {id}
    ensures forall k :: k in o.table ==> k in t && o.table[k] == t[k]
  {
    if id !in t then Outcome(Err(App(UserNotFoundError())), t)
    else if !crypto.verify(data.password, t[id].hashedPassword) then Outcome(Err(App(InvalidCredentialsError())), t)
    else
      match ApplyChange(t, Delete(id))
      case Err(e) => Outcome(Err(Translate(DbExc(e), None, None)), t)
      case Ok(t') => Outcome(Ok(()), t')
  }

  /** PostgreSQL's text for a unique violation names the index it broke. */
  lemma UniqueTextNamesIndex(name: string, column: string, value: string)
    ensures Contains(ErrorText(UniqueViolation(name, column, value)), name)
  {
    var before := "duplicate key value violates unique constraint \"";
    var after := "\"\nDETAIL:  Key (" + column + ")=(" + value + ") already exists.";
    assert ErrorText(UniqueViolation(name, column, value)) == before + name + after;
    InfixContained(before, name, after);
  }

  /** Creating an account whose email another row already holds is refused with
      `DuplicateEmailError` for that email, and nothing is written. */
  lemma CreateDuplicateEmail(t: Table, crypto: Crypto, data: UserCreate, newId: Uuid)
    requires newId !in t && Fits(Created(crypto, data, newId)) && data.email != ""
    requires EmailTaken(t, data.email, newId)
    ensures CreateSpec(t, crypto, data, newId) == Outcome(Err(App(DuplicateEmailError(data.email))), t)
  {
    UniqueTextNamesIndex(EmailIndex, "email", data.email);
  }

  /** A username conflict is reported as `DuplicateUsernameError` for that username, provided
      the engine's text does not also mention the email index. */
  lemma CreateDuplicateUsername(t: Table, crypto: Crypto, data: UserCreate, newId: Uuid)
    requires newId !in t && Fits(Created(crypto, data, newId)) && data.username != ""
    requires !EmailTaken(t, data.email, newId) && UsernameTaken(t, data.username, newId)
    requires !Contains(ErrorText(UniqueViolation(UsernameIndex, "username", data.username)), EmailIndex)
    ensures CreateSpec(t, crypto, data, newId) == Outcome(Err(App(DuplicateUsernameError(data.username))), t)
  {
    UniqueTextNamesIndex(UsernameIndex, "username", data.username);
  }

  /** The substring test reads the whole message, DETAIL line included, so a username conflict
      on the username "ix_users_email" is reported as a duplicate email. */
  lemma UsernameSpelledLikeEmailIndex(t: Table, crypto: Crypto, data: UserCreate, newId: Uuid)
    requires newId !in t && Fits(Created(crypto, data, newId)) && data.email != ""
    requires data.username == EmailIndex
    requires !EmailTaken(t, data.email, newId) && UsernameTaken(t, data.username, newId)
    ensures CreateSpec(t, crypto, data, newId).result == Err(App(DuplicateEmailError(data.email)))
  {
    var before := "duplicate key value violates unique constraint \"" + UsernameIndex + "\"\nDETAIL:  Key (username)=(";
    var after := ") already exists.";
    assert ErrorText(UniqueViolation(UsernameIndex, "username", data.username)) == before + EmailIndex + after;
    InfixContained(before, EmailIndex, after);
  }

  /** A value too wide for its column is a data error, not an integrity error: it is re-raised
      untranslated even though an email and a username were supplied. */
  lemma CreateTooLongNotTranslated(t: Table, crypto: Crypto, data: UserCreate, newId: Uuid)
    requires |data.name| > NameWidth
    ensures CreateSpec(t, crypto, data, newId) ==
      Outcome(Err(Database("value too long for type character varying(256)")), t)
  {
    var e := StringTooLong("name", "character varying(256)");
    assert ApplyChange(t, Insert(NewRecord(crypto, data, newId))) == Err(e);
    assert ErrorText(e) == "value too long for type character varying(256)";
  }

  /** Changing the email to one another row holds is refused with `DuplicateEmailError`. */
  lemma UpdateDuplicateEmail(t: Table, crypto: Crypto, id: Uuid, data: UserUpdate)
    requires WellFormed(t) && id in t && crypto.verify(data.password, t[id].hashedPassword)
    requires data.email.Some? && data.email.value != ""
    requires Fits(Patched(t[id], data)) && EmailTaken(t, data.email.value, id)
    ensures UpdateSpec(t, crypto, id, data) == Outcome(Err(App(DuplicateEmailError(data.email.value))), t)
  {
    UniqueTextNamesIndex(EmailIndex, "email", data.email.value);
  }

  /** After a successful update, reading the record back gives the patched view. */
  lemma UpdateThenGet(t: Table, crypto: Crypto, id: Uuid, data: UserUpdate)
    requires WellFormed(t) && UpdateSpec(t, crypto, id, data).result.Ok?
    ensures GetSpec(UpdateSpec(t, crypto, id, data).table, id).result == UpdateSpec(t, crypto, id, data).result
  {
  }

  /** After a successful delete, looking the id up reports `UserNotFoundError`. */
  lemma DeleteThenGet(t: Table, crypto: Crypto, id: Uuid, data: UserDelete)
    requires WellFormed(t) && DeleteSpec(t, crypto, id, data).result.Ok?
    ensures GetSpec(DeleteSpec(t, crypto, id, data).table, id).result == Err(App(UserNotFoundError()))
  {
  }

  class UserService {
    const session: Session
    const repository: UserRepository
    const crypto: Crypto

    ghost predicate Valid()
      reads this, session
    {
      session.Valid() && repository.session == session
    }

    constructor (session: Session, crypto: Crypto)
      ensures this.session == session && this.crypto == crypto
      ensures fresh(repository) && repository.session == session
    {
      this.session := session;
      this.repository := new UserRepository(session);
      this.crypto := crypto;
    }

    /** `_transaction`: after the body, commit; on any error, roll back; an integrity error
        whose text names an index is replaced by the matching conflict error. */
    method Transaction<T>(body: Result<T, Exc>, email: Option<string>, username: Option<string>)
      returns (r: Result<T, Exc>)
      requires Valid()
      modifies session
      ensures Valid() && session.Idle()
      ensures body.Ok? && old(session.FlushOutcome()).Ok? ==>
        && r == body && session.rows == old(session.FlushOutcome()).value
        && session.commits == old(session.commits) + 1 && session.rollbacks == old(session.rollbacks)
      ensures body.Ok? && old(session.FlushOutcome()).Err? ==>
        && r == Err(Translate(DbExc(old(session.FlushOutcome()).error), email, username))
        && session.rows == old(session.committed)
        && session.commits == old(session.commits) && session.rollbacks == old(session.rollbacks) + 1
      ensures body.Err? ==>
        && r == Err(Translate(body.error, email, username))
        && session.rows == old(session.committed)
        && session.commits == old(session.commits) && session.rollbacks == old(session.rollbacks) + 1
    {
      if body.Ok? {
        var e := session.Commit();
        if e.None? {
          r := body;
        } else {
          session.Rollback();
          r := Err(Translate(DbExc(e.value), email, username));
        }
      } else {
        session.Rollback();
        r := Err(Translate(body.error, email, username));
      }
    }

    /** The flush of one staged change, then the refresh of the record it wrote. */
    method FlushThenRefresh(c: Change, id: Uuid) returns (body: Result<UserRead, Exc>)
      requires Valid() && session.pending == [c] && session.rows == session.committed
      requires ApplyChange(session.rows, c).Ok? ==> id in ApplyChange(session.rows, c).value
      modifies session
      ensures Valid() && session.committed == old(session.committed)
      ensures session.commits == old(session.commits) && session.rollbacks == old(session.rollbacks)
      ensures match ApplyChange(old(session.rows), c)
        case Err(x) =>
          body == Err(DbExc(x)) && session.rows == old(session.rows) && session.pending == [c]
        case Ok(t') =>
          body == Ok(View(t'[id])) && session.rows == t' && session.pending == []
    {
      ApplyAllSingle(session.rows, c);
      var e := session.Flush();
      match e {
        case Some(x) =>
          body := Err(DbExc(x));
        case None =>
          var u := repository.Refresh(id);
          body := Ok(View(u.value));
      }
    }

    /** `create_user`: add the record, flush, refresh, project; conflicts become
        `DuplicateEmailError` or `DuplicateUsernameError`. */
    method CreateUser(data: UserCreate, newId: Uuid) returns (r: Result<UserRead, Exc>)
      requires Valid() && session.Idle()
      modifies session
      ensures Valid() && session.Idle()
      ensures r == CreateSpec(old(session.rows), crypto, data, newId).result
      ensures session.rows == CreateSpec(old(session.rows), crypto, data, newId).table
      ensures r.Ok? ==> session.commits == old(session.commits) + 1 && session.rollbacks == old(session.rollbacks)
      ensures r.Err? ==> session.commits == old(session.commits) && session.rollbacks == old(session.rollbacks) + 1
    {
      ghost var t := session.rows;
      var record := NewRecord(crypto, data, newId);
      repository.Add(record);
      var body := FlushThenRefresh(Insert(record), newId);
      r := Transaction(body, Some(data.email), Some(data.username));
    }

    /** `update_user`: load, check the password, set the supplied fields, flush, refresh. */
    method UpdateUser(id: Uuid, data: UserUpdate) returns (r: Result<UserRead, Exc>)
      requires Valid() && session.Idle()
      modifies session
      ensures Valid() && session.Idle()
      ensures r == UpdateSpec(old(session.rows), crypto, id, data).result
      ensures session.rows == UpdateSpec(old(session.rows), crypto, id, data).table
      ensures r.Ok? ==> session.commits == old(session.commits) + 1 && session.rollbacks == old(session.rollbacks)
      ensures r.Err? ==> session.commits == old(session.commits) && session.rollbacks == old(session.rollbacks) + 1
    {
      ghost var t := session.rows;
      ghost var o := UpdateSpec(t, crypto, id, data);
      var body: Result<UserRead, Exc>;
      var found := repository.GetById(id);
      if found.None? {
        body := Err(App(UserNotFoundError()));
        assert o.result == Err(Translate(body.error, data.email, data.username));
      } else if !crypto.verify(data.password, found.value.hashedPassword) {
        body := Err(App(InvalidCredentialsError()));
        assert o.result == Err(Translate(body.error, data.email, data.username));
      } else {
        var user := ApplyUpdate(found.value, data);
        session.Stage(Update(user));
        body := FlushThenRefresh(Update(user), id);
      }
      r := Transaction(body, data.email, data.username);
    }

    /** `get_user_by_id`. */
    method GetUserById(id: Uuid) returns (r: Result<UserRead, Exc>)
      requires Valid() && session.Idle()
      modifies session
      ensures Valid() && session.Idle()
      ensures r == GetSpec(old(session.rows), id).result
      ensures session.rows == old(session.rows)
      ensures r.Ok? ==> session.commits == old(session.commits) + 1 && session.rollbacks == old(session.rollbacks)
      ensures r.Err? ==> session.commits == old(session.commits) && session.rollbacks == old(session.rollbacks) + 1
    {
      var body: Result<UserRead, Exc>;
      var found := repository.GetById(id);
      if found.None? {
        body := Err(App(UserNotFoundError()));
      } else {
        body := Ok(View(found.value));
      }
      r := Transaction(body, None, None);
    }

    /** `delete_user`: load, check the password, delete, flush. */
    method DeleteUser(id: Uuid, data: UserDelete) returns (r: Result<(), Exc>)
      requires Valid() && session.Idle()
      modifies session
      ensures Valid() && session.Idle()
      ensures r == DeleteSpec(old(session.rows), crypto, id, data).result
      ensures session.rows == DeleteSpec(old(session.rows), crypto, id, data).table
      ensures r.Ok? ==> session.commits == old(session.commits) + 1 && session.rollbacks == old(session.rollbacks)
      ensures r.Err? ==> session.commits == old(session.commits) && session.rollbacks == old(session.rollbacks) + 1
    {
      ghost var t := session.rows;
      ghost var o := DeleteSpec(t, crypto, id, data);
      var body: Result<(), Exc>;
      var found := repository.GetById(id);
      if found.None? {
        body := Err(App(UserNotFoundError()));
        assert o == Outcome(Err(Translate(body.error, None, None)), t);
      } else if !crypto.verify(data.password, found.value.hashedPassword) {
        body := Err(App(InvalidCredentialsError()));
        assert o == Outcome(Err(Translate(body.error, None, None)), t);
      } else {
        ApplyAllSingle(t, Change.Delete(id));
        repository.Delete(found.value);
        var e := session.Flush();
        body := FlushFailure(e);
        assert ApplyChange(t, Change.Delete(id)).Ok? ==> o == Outcome(body, session.rows);
      }
      r := Transaction(body, None, None);
    }
  }
}
