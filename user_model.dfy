/** app/models/user_model.py: the `users` table as a map from id to record, its column
    widths, NOT NULL columns, the `is_master` default and the two unique indexes, and the
    errors PostgreSQL reports when a flushed change breaks one of them. */
module UserModel {
  import opened Wrappers
  import opened Strings
  import opened Uuids
  import opened UserSchemas

  datatype User = User(id: Uuid, name: string, username: string, email: string,
                       hashedPassword: string, isMaster: bool)

  /** A `UserModel(...)` before its first flush: columns nobody assigned are None. The id
      stands for the `uuid4` default, drawn by the caller. */
  datatype NewUser = NewUser(id: Uuid, name: Option<string>, username: Option<string>,
                             email: Option<string>, hashedPassword: Option<string>,
                             isMaster: Option<bool>)

  const NameWidth: nat := 256
  const UsernameWidth: nat := 64
  const EmailWidth: nat := 256

  type Table = map<Uuid, User>

  /** `String(256)`, `String(64)`, `String(256)`. */
  predicate Fits(u: User) {
    |u.name| <= NameWidth && |u.username| <= UsernameWidth && |u.email| <= EmailWidth
  }

  /** The table invariant: rows are keyed by their id, fit their columns, and no two rows
      share an email or a username (`unique=True` on both columns). */
  ghost predicate WellFormed(t: Table) {
    && (forall id :: id in t ==> t[id].id == id && Fits(t[id]))
    && (forall a, b :: a in t && b in t && t[a].email == t[b].email ==> a == b)
    && (forall a, b :: a in t && b in t && t[a].username == t[b].username ==> a == b)
  }

  datatype DbError =
    | NotNullViolation(column: string)
    | StringTooLong(column: string, sqlType: string)
    | UniqueViolation(constraint: string, column: string, value: string)
    | StaleUpdate

  /** The errors SQLAlchemy raises as `IntegrityError`; the others are a `DataError` and a
      `StaleDataError`. */
  predicate IsIntegrityError(e: DbError) {
    e.NotNullViolation? || e.UniqueViolation?
  }

  /** `str(exc.orig)`: the engine's message, with its DETAIL line for unique violations. */
  function ErrorText(e: DbError): string {
    match e
    case NotNullViolation(c) =>
      "null value in column \"" + c + "\" of relation \"users\" violates not-null constraint"
    case StringTooLong(_, t) => "value too long for type " + t
    case UniqueViolation(name, c, v) =>
      "duplicate key value violates unique constraint \"" + name + "\"\nDETAIL:  Key (" + c + ")=(" + v + ") already exists."
    case StaleUpdate => "UPDATE statement on table 'users' expected to update 1 row(s); 0 were matched."
  }

  const EmailIndex := "ix_users_email"
  const UsernameIndex := "ix_users_username"
  const PrimaryKey := "users_pkey"

  /** The first column value that is wider than its column, in column order. */
  function WidthError(name: Option<string>, username: Option<string>, email: Option<string>): Option<DbError> {
    if name.Some? && |name.value| > NameWidth then Some(StringTooLong("name", "character varying(256)"))
    else if username.Some? && |username.value| > UsernameWidth then Some(StringTooLong("username", "character varying(64)"))
    else if email.Some? && |email.value| > EmailWidth then Some(StringTooLong("email", "character varying(256)"))
    else None
  }

  /** The row an INSERT writes: column widths, then NOT NULL in column order; `is_master`
      takes its default `False` when unset. */
  function Materialize(d: NewUser): (r: Result<User, DbError>)
    ensures r.Ok? <==> d.name.Some? && d.username.Some? && d.email.Some? && d.hashedPassword.Some?
                       && WidthError(d.name, d.username, d.email).None?
    ensures r.Ok? ==>
      && Fits(r.value) && r.value.id == d.id
      && r.value.name == d.name.value && r.value.username == d.username.value
      && r.value.email == d.email.value && r.value.hashedPassword == d.hashedPassword.value
      && r.value.isMaster == d.isMaster.GetOr(false)
    ensures r.Err? ==> IsIntegrityError(r.error) || r.error.StringTooLong?
  {
    var wide := WidthError(d.name, d.username, d.email);
    if wide.Some? then Err(wide.value)
    else if d.name.None? then Err(NotNullViolation("name"))
    else if d.username.None? then Err(NotNullViolation("username"))
    else if d.email.None? then Err(NotNullViolation("email"))
    else if d.hashedPassword.None? then Err(NotNullViolation("hashed_password"))
    else Ok(User(d.id, d.name.value, d.username.value, d.email.value, d.hashedPassword.value,
                if d.isMaster.Some? then d.isMaster.value else false))
  }

  /** Some row other than `except` already holds this email. */
  predicate EmailTaken(t: Table, email: string, except: Uuid) {
    exists k :: k in t && k != except && t[k].email == email
  }

  predicate UsernameTaken(t: Table, username: string, except: Uuid) {
    exists k :: k in t && k != except && t[k].username == username
  }

  /** A change the unit of work writes at flush time. */
  datatype Change = Insert(row: NewUser) | Update(user: User) | Delete(id: Uuid)

  /** Unique indexes are checked in the order primary key, email, username. */
  function UniqueError(t: Table, u: User, isInsert: bool): Option<DbError> {
    if isInsert && u.id in t then Some(UniqueViolation(PrimaryKey, "id", UuidString(u.id)))
    else if EmailTaken(t, u.email, u.id) then Some(UniqueViolation(EmailIndex, "email", u.email))
    else if UsernameTaken(t, u.username, u.id) then Some(UniqueViolation(UsernameIndex, "username", u.username))
    else None
  }

  /** One INSERT, UPDATE or DELETE. Writing a row that breaks no constraint keeps the table
      well formed; deleting an absent row is a no-op. */
  function ApplyChange(t: Table, c: Change): (r: Result<Table, DbError>)
    ensures WellFormed(t) && r.Ok? ==> WellFormed(r.value)
  {
    match c
    case Insert(d) =>
      (match Materialize(d)
       case Err(e) => Err(e)
       case Ok(u) =>
         var clash := UniqueError(t, u, true);
         if clash.Some? then Err(clash.value) else Ok(t[u.id := u]))
    case Update(u) =>
      var wide := WidthError(Some(u.name), Some(u.username), Some(u.email));
      if wide.Some? then Err(wide.value)
      else if u.id !in t then Err(StaleUpdate)
      else
        var clash := UniqueError(t, u, false);
        if clash.Some? then Err(clash.value) else Ok(t[u.id := u])
    case Delete(id) => Ok(t - {id})
  }

  /** A flush: the staged changes in order, stopping at the first that fails. */
  function ApplyAll(t: Table, cs: seq<Change>): (r: Result<Table, DbError>)
    ensures WellFormed(t) && r.Ok? ==> WellFormed(r.value)
    decreases |cs|
  {
    if cs == [] then Ok(t)
    else
      match ApplyAll(t, cs[..|cs| - 1])
      case Ok(t') => ApplyChange(t', cs[|cs| - 1])
      case Err(e) => Err(e)
  }

  /** Flushing one more change: the prefix's outcome, then that change. */
  lemma ApplyAllExtend(t: Table, cs: seq<Change>, i: nat)
    requires i < |cs|
    ensures ApplyAll(t, cs[..i + 1]) ==
      match ApplyAll(t, cs[..i])
      case Ok(t') => ApplyChange(t', cs[i])
      case Err(e) => Err(e)
  {
    assert cs[..i + 1][..i] == cs[..i];
  }

  /** Once a prefix of the changes fails, the whole flush fails with that error. */
  lemma {:induction false} ApplyAllFailureSticks(t: Table, cs: seq<Change>, i: nat)
    requires i <= |cs| && ApplyAll(t, cs[..i]).Err?
    ensures ApplyAll(t, cs) == ApplyAll(t, cs[..i])
    decreases |cs| - i
  {
    if i < |cs| {
      assert cs[..i + 1][..i] == cs[..i];
      ApplyAllFailureSticks(t, cs, i + 1);
    } else {
      assert cs[..i] == cs;
    }
  }

  function Lookup(t: Table, id: Uuid): (r: Option<User>)
    ensures r.Some? <==> id in t
    ensures r.Some? ==> r.value == t[id]
  {
    if id in t then Some(t[id]) else None
  }

  /** `select(UserModel).filter_by(email=email)` then `scalar_one_or_none()`: the one row with
      that email, which the unique index makes the only candidate. */
  ghost function ByEmail(t: Table, email: string): (r: Option<User>)
    requires WellFormed(t)
    ensures r.Some? ==> r.value.id in t && t[r.value.id] == r.value && r.value.email == email
    ensures r.None? <==> forall k :: k in t ==> t[k].email != email
  {
    if exists k :: k in t && t[k].email == email then
      var k :| k in t && t[k].email == email; Some(t[k])
    else None
  }

  /** `UserRead.model_validate(user)`: the public projection, without the password hash. */
  function View(u: User): (v: UserRead)
    ensures v.id == u.id && v.name == u.name && v.username == u.username
      && v.email == u.email && v.isMaster == u.isMaster
  {
    UserRead(u.id, u.name, u.username, u.email, u.isMaster)
  }

  /** A second insert with an email already in the table fails on `ix_users_email` and a second
      insert with a username already in it fails on `ix_users_username`. */
  lemma InsertDuplicateFails(t: Table, d: NewUser)
    requires WellFormed(t) && Materialize(d).Ok? && d.id !in t
    ensures var u := Materialize(d).value;
      && (EmailTaken(t, u.email, u.id) ==> ApplyChange(t, Insert(d)) == Err(UniqueViolation(EmailIndex, "email", u.email)))
      && (!EmailTaken(t, u.email, u.id) && UsernameTaken(t, u.username, u.id) ==>
            ApplyChange(t, Insert(d)) == Err(UniqueViolation(UsernameIndex, "username", u.username)))
      && (!EmailTaken(t, u.email, u.id) && !UsernameTaken(t, u.username, u.id) ==>
            ApplyChange(t, Insert(d)) == Ok(t[d.id := u]))
  {
  }

  /** Unassigned required columns are refused, and `is_master` defaults to false. */
  lemma NotNullAndDefault(d: NewUser)
    requires WidthError(d.name, d.username, d.email).None?
    ensures d.name.None? ==> Materialize(d) == Err(NotNullViolation("name"))
    ensures d.name.Some? && d.username.None? ==> Materialize(d) == Err(NotNullViolation("username"))
    ensures Materialize(d).Ok? && d.isMaster.None? ==> !Materialize(d).value.isMaster
  {
  }
}
