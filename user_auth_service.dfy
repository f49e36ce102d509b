/** app/services/user_auth_service.py: login and password change. Its transaction scope commits
    on success and rolls back on any error, with no conflict translation. */
module UserAuthService {
  import opened Wrappers
  import opened Uuids
  import opened UserSchemas
  import opened UserModel
  import opened DbSession
  import opened UserRepository
  import opened Security
  import opened Exceptions
  import opened Failures
  import opened UserService

  /** `login_user`: the record with that email, then the password check. */
  ghost function LoginSpec(t: Table, crypto: Crypto, data: UserLogin): (o: Outcome<UserRead>)
    requires WellFormed(t)
    ensures o.table == t
    ensures o.result == Err(App(UserNotFoundError())) <==> forall k :: k in t ==> t[k].email != data.email
    ensures o.result.Ok? <==>
      exists k :: k in t && t[k].email == data.email && crypto.verify(data.password, t[k].hashedPassword)
    ensures o.result.Ok? ==>
      o.result.value.id in t && o.result.value == View(t[o.result.value.id]) && o.result.value.email == data.email
    ensures o.result.Err? ==>
      o.result.error == App(UserNotFoundError()) || o.result.error == App(InvalidCredentialsError())
  {
    var found := ByEmail(t, data.email);
    if found.None? then Outcome(Err(App(UserNotFoundError())), t)
    else if !crypto.verify(data.password, found.value.hashedPassword) then Outcome(Err(App(InvalidCredentialsError())), t)
    else Outcome(Ok(View(found.value)), t)
  }

  /** The record once its hash is replaced by that of `newPassword`. */
  function Rehashed(u: User, crypto: Crypto, newPassword: string): User {
    u.(hashedPassword := crypto.hash(newPassword))
  }

  /** `change_password`: not-found, then the current-password check, then the new hash. A
      hash write on a well-formed table breaks no constraint, so past the checks it succeeds. */
  function ChangePasswordSpec(t: Table, crypto: Crypto, id: Uuid, data: UserChangePassword): (o: Outcome<UserRead>)
    requires WellFormed(t)
    ensures WellFormed(o.table)
    ensures id !in t ==> o.result == Err(App(UserNotFoundError()))
    ensures id in t && !crypto.verify(data.currentPassword, t[id].hashedPassword) ==>
      o.result == Err(App(InvalidCredentialsError()))
    ensures o.result.Ok? <==> id in t && crypto.verify(data.currentPassword, t[id].hashedPassword)
    ensures o.result.Err? ==> o.table == t
    ensures o.result.Ok? ==>
      && o.table.Keys == t.Keys
      && o.table[id].hashedPassword == crypto.hash(data.newPassword)
      && o.table[id].(hashedPassword := t[id].hashedPassword) == t[id]
      && (forall k :: k in t && k != id ==> o.table[k] == t[k])
      && o.result.value == View(t[id])
  {
    if id !in t then Outcome(Err(App(UserNotFoundError())), t)
    else if !crypto.verify(data.currentPassword, t[id].hashedPassword) then Outcome(Err(App(InvalidCredentialsError())), t)
    else
      var u := Rehashed(t[id], crypto, data.newPassword);
      assert !EmailTaken(t, u.email, id) && !UsernameTaken(t, u.username, id);
      match ApplyChange(t, Update(u))
      case Err(e) => Outcome(Err(DbExc(e)), t)
      case Ok(t') => Outcome(Ok(View(t'[id])), t')
  }

  /** An account just created can log in with the password it was created with. */
  lemma CreateThenLogin(t: Table, crypto: Crypto, data: UserCreate, newId: Uuid)
    requires Sound(crypto) && WellFormed(t) && CreateSpec(t, crypto, data, newId).result.Ok?
    ensures LoginSpec(CreateSpec(t, crypto, data, newId).table, crypto, UserLogin(data.password, data.email)).result
      == Ok(View(Created(crypto, data, newId)))
  {
    var t' := CreateSpec(t, crypto, data, newId).table;
    assert t'[newId].email == data.email;
    assert crypto.verify(data.password, t'[newId].hashedPassword);
  }

  /** After a password change the new password logs in and the old one no longer does, unless
      it happens to verify against the new hash too. */
  lemma ChangeThenLogin(t: Table, crypto: Crypto, id: Uuid, data: UserChangePassword)
    requires Sound(crypto) && WellFormed(t) && ChangePasswordSpec(t, crypto, id, data).result.Ok?
    ensures var t' := ChangePasswordSpec(t, crypto, id, data).table;
      && LoginSpec(t', crypto, UserLogin(data.newPassword, t[id].email)).result == Ok(View(t[id]))
      && (!crypto.verify(data.currentPassword, crypto.hash(data.newPassword)) ==>
            LoginSpec(t', crypto, UserLogin(data.currentPassword, t[id].email)).result == Err(App(InvalidCredentialsError())))
  {
    var t' := ChangePasswordSpec(t, crypto, id, data).table;
    assert t'[id].email == t[id].email && View(t'[id]) == View(t[id]);
    assert crypto.verify(data.newPassword, t'[id].hashedPassword);
  }

  class UserAuthService {
    const session: Session
    const repository: UserRepository
    const crypto: Crypto

    ghost predicate Valid()
      reads this, session
    {
      session.Valid() && repository.session == session
    }

    constructor (session: Session, crypto: Crypto)
      ensures this.session == session && this.crypto == crypto
      ensures fresh(repository) && repository.session == session
    {
      this.session := session;
      this.repository := new UserRepository(session);
      this.crypto := crypto;
    }

    /** `_transaction`: commit after the body; on any error roll back and re-raise as is. */
    method Transaction<T>(body: Result<T, Exc>) returns (r: Result<T, Exc>)
      requires Valid()
      modifies session
      ensures Valid() && session.Idle()
      ensures body.Ok? && old(session.FlushOutcome()).Ok? ==>
        && r == body && session.rows == old(session.FlushOutcome()).value
        && session.commits == old(session.commits) + 1 && session.rollbacks == old(session.rollbacks)
      ensures body.Ok? && old(session.FlushOutcome()).Err? ==>
        && r == Err(DbExc(old(session.FlushOutcome()).error))
        && session.rows == old(session.committed)
        && session.commits == old(session.commits) && session.rollbacks == old(session.rollbacks) + 1
      ensures body.Err? ==>
        && r == body
        && session.rows == old(session.committed)
        && session.commits == old(session.commits) && session.rollbacks == old(session.rollbacks) + 1
    {
      if body.Ok? {
        var e := session.Commit();
        match e {
          case None =>
            r := body;
          case Some(err) =>
            session.Rollback();
            r := Err(DbExc(err));
        }
      } else {
        session.Rollback();
        r := body;
      }
    }

    method LoginUser(data: UserLogin) returns (r: Result<UserRead, Exc>)
      requires Valid() && session.Idle()
      modifies session
      ensures Valid() && session.Idle()
      ensures r == LoginSpec(old(session.rows), crypto, data).result
      ensures session.rows == old(session.rows)
      ensures r.Ok? ==> session.commits == old(session.commits) + 1 && session.rollbacks == old(session.rollbacks)
      ensures r.Err? ==> session.commits == old(session.commits) && session.rollbacks == old(session.rollbacks) + 1
    {
      var body: Result<UserRead, Exc>;
      var found := repository.GetByEmail(data.email);
      if found.None? {
        body := Err(App(UserNotFoundError()));
      } else if !crypto.verify(data.password, found.value.hashedPassword) {
        body := Err(App(InvalidCredentialsError()));
      } else {
        body := Ok(View(found.value));
      }
      r := Transaction(body);
    }

    /** The staged update, its flush and the refresh, for a change that breaks no constraint. */
    method StoreHash(user: User) returns (body: Result<UserRead, Exc>)
      requires Valid() && session.Idle()
      requires ApplyChange(session.rows, Update(user)).Ok?
      modifies session
      ensures Valid() && session.committed == old(session.committed)
      ensures session.commits == old(session.commits) && session.rollbacks == old(session.rollbacks)
      ensures session.pending == [] && session.rows == ApplyChange(old(session.rows), Update(user)).value
      ensures body == Ok(View(session.rows[user.id]))
    {
      ghost var t := session.rows;
      ApplyAllSingle(t, Update(user));
      session.Stage(Update(user));
      var e := session.Flush();
      match e {
        case None =>
          var u := repository.Refresh(user.id);
          body := Ok(View(u.value));
      }
    }

    method ChangePassword(id: Uuid, data: UserChangePassword) returns (r: Result<UserRead, Exc>)
      requires Valid() && session.Idle()
      modifies session
      ensures Valid() && session.Idle()
      ensures r == ChangePasswordSpec(old(session.rows), crypto, id, data).result
      ensures session.rows == ChangePasswordSpec(old(session.rows), crypto, id, data).table
      ensures r.Ok? ==> session.commits == old(session.commits) + 1 && session.rollbacks == old(session.rollbacks)
      ensures r.Err? ==> session.commits == old(session.commits) && session.rollbacks == old(session.rollbacks) + 1
    {
      ghost var t := session.rows;
      ghost var o := ChangePasswordSpec(t, crypto, id, data);
      var body: Result<UserRead, Exc>;
      var found := repository.GetById(id);
      if found.None? {
        body := Err(App(UserNotFoundError()));
        assert o.result == body;
      } else if !crypto.verify(data.currentPassword, found.value.hashedPassword) {
        body := Err(App(InvalidCredentialsError()));
        assert o.result == body;
      } else {
        var user := found.value.(hashedPassword := crypto.hash(data.newPassword));
        assert user == Rehashed(t[id], crypto, data.newPassword);
        assert o.result.Ok? && ApplyChange(t, Update(user)) == Ok(o.table);
        body := StoreHash(user);
        assert o == Outcome(body, session.rows);
      }
      r := Transaction(body);
    }
  }
}
