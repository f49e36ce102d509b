/** app/schemas/user_schema.py and app/schemas/base_schema.py: each input schema is a
    validation function from a raw payload to a record or the set of errors pydantic collects.
    Every schema forbids undeclared fields; model validators run only once all fields passed. */
module UserSchemas {
  import opened Wrappers
  import opened Uuids
  import opened Payloads
  import opened Validators

  /** The email syntax rule of `EmailStr`, supplied by the caller (an external validator). */
  type EmailCheck = string -> bool

  datatype FieldError =
    | Missing(field: string)
    | NotAString(field: string)
    | NotABool(field: string)
    | NotAUuid(field: string)
    | ValueTooShort(field: string, min: nat)
    | ValueTooLong(field: string, max: nat)
    | NotAnEmail(field: string)
    | WeakPassword(field: string, reason: PasswordError)
    | ExtraForbidden(field: string)
    | NotAnObject
    | NothingToUpdate
    | SamePassword

  datatype UserCreate = UserCreate(password: string, name: string, username: string, email: string)
  datatype UserUpdate = UserUpdate(password: string, name: Option<string>, username: Option<string>, email: Option<string>)
  datatype UserChangePassword = UserChangePassword(currentPassword: string, newPassword: string)
  datatype UserLogin = UserLogin(password: string, email: string)
  datatype UserDelete = UserDelete(password: string)

  /** The public view of a user: no password hash. */
  datatype UserRead = UserRead(id: Uuid, name: string, username: string, email: string, isMaster: bool)

  /** A `min_length` and an optional `max_length`. */
  datatype Bounds = Bounds(min: nat, max: Option<nat>)

  const PasswordBounds := Bounds(8, None)
  const NameBounds := Bounds(5, Some(256))
  const UsernameBounds := Bounds(3, Some(64))
  const EmailMaxLength: nat := 256

  predicate Within(s: string, b: Bounds) {
    b.min <= |s| && (b.max.Some? ==> |s| <= b.max.value)
  }

  /** A required `str` field. */
  function StrField(p: Payload, f: string, b: Bounds): (r: Result<string, FieldError>)
    ensures r.Ok? <==> f in p && p[f].VStr? && Within(p[f].s, b)
    ensures r.Ok? ==> p[f] == VStr(r.value)
  {
    if f !in p then Err(Missing(f))
    else match p[f]
      case VStr(s) =>
        if |s| < b.min then Err(ValueTooShort(f, b.min))
        else if b.max.Some? && |s| > b.max.value then Err(ValueTooLong(f, b.max.value))
        else Ok(s)
      case _ => Err(NotAString(f))
  }

  /** An `Optional[str]` field defaulting to None: absent or null both give None. */
  function OptStrField(p: Payload, f: string, b: Bounds): (r: Result<Option<string>, FieldError>)
    ensures r == Ok(None) <==> f !in p || p[f] == VNull
    ensures r.Ok? && r.value.Some? <==> f in p && p[f].VStr? && Within(p[f].s, b)
    ensures r.Ok? && r.value.Some? ==> p[f] == VStr(r.value.value)
  {
    if f !in p || p[f] == VNull then Ok(None)
    else match StrField(p, f, b)
      case Ok(s) => Ok(Some(s))
      case Err(e) => Err(e)
  }

  predicate ValidEmail(isEmail: EmailCheck, s: string, max: Option<nat>) {
    Within(s, Bounds(0, max)) && isEmail(s)
  }

  /** An `EmailStr` field: a string, then the length bound, then the email syntax. */
  function EmailField(isEmail: EmailCheck, p: Payload, f: string, max: Option<nat>): (r: Result<string, FieldError>)
    ensures r.Ok? <==> f in p && p[f].VStr? && ValidEmail(isEmail, p[f].s, max)
    ensures r.Ok? ==> p[f] == VStr(r.value)
  {
    match StrField(p, f, Bounds(0, max))
    case Ok(s) => if isEmail(s) then Ok(s) else Err(NotAnEmail(f))
    case Err(e) => Err(e)
  }

  /** An `Optional[EmailStr]` field defaulting to None. */
  function OptEmailField(isEmail: EmailCheck, p: Payload, f: string, max: Option<nat>): (r: Result<Option<string>, FieldError>)
    ensures r == Ok(None) <==> f !in p || p[f] == VNull
    ensures r.Ok? && r.value.Some? <==> f in p && p[f].VStr? && ValidEmail(isEmail, p[f].s, max)
    ensures r.Ok? && r.value.Some? ==> p[f] == VStr(r.value.value)
  {
    if f !in p || p[f] == VNull then Ok(None)
    else match EmailField(isEmail, p, f, max)
      case Ok(s) => Ok(Some(s))
      case Err(e) => Err(e)
  }

  /** A password field: `min_length=8`, then `validate_password_strength` as an after-validator. */
  function PasswordField(p: Payload, f: string): (r: Result<string, FieldError>)
    ensures r.Ok? <==> f in p && p[f].VStr? && Strong(p[f].s)
    ensures r.Ok? ==> p[f] == VStr(r.value)
  {
    match StrField(p, f, PasswordBounds)
    case Ok(s) =>
      (match ValidatePasswordStrength(s)
       case Ok(checked) => Ok(checked)
       case Err(reason) => Err(WeakPassword(f, reason)))
    case Err(e) => Err(e)
  }

  function ErrorOf<T>(r: Result<T, FieldError>): (errors: set<FieldError>)
    ensures errors == {} <==> r.Ok?
  {
    match r
    case Ok(_) => {}
    case Err(e) => {e}
  }

  /** `extra="forbid"`: one error per key that the schema does not declare. */
  function Extras(p: Payload, declared: set<string>): (errors: set<FieldError>)
    ensures errors == {} <==> p.Keys <= declared
    ensures forall k :: k in p && k !in declared ==> ExtraForbidden(k) in errors
  {
    var errors := set k | k in p && k !in declared :: ExtraForbidden(k);
    assert forall k :: k in p && k !in declared ==> ExtraForbidden(k) in errors;
    errors
  }

  // ---------------------------------------------------------------- UserCreate

  const CreateFieldNames: set<string> := {"password", "name", "username", "email"}

  ghost predicate ValidCreate(isEmail: EmailCheck, c: UserCreate) {
    Strong(c.password) && Within(c.name, NameBounds) && Within(c.username, UsernameBounds)
    && ValidEmail(isEmail, c.email, Some(EmailMaxLength))
  }

  function CreatePayload(c: UserCreate): Payload {
    map["password" := VStr(c.password), "name" := VStr(c.name),
        "username" := VStr(c.username), "email" := VStr(c.email)]
  }

  /** `UserCreate(**p)`. An accepted payload is exactly the encoding of a valid record. */
  function ParseUserCreate(isEmail: EmailCheck, p: Payload): (r: Result<UserCreate, set<FieldError>>)
    ensures r.Ok? ==> ValidCreate(isEmail, r.value) && p == CreatePayload(r.value)
    ensures r.Err? ==> r.error != {}
    ensures forall k :: k in p && k !in CreateFieldNames ==> r.Err? && ExtraForbidden(k) in r.error
  {
    var password := PasswordField(p, "password");
    var name := StrField(p, "name", NameBounds);
    var username := StrField(p, "username", UsernameBounds);
    var email := EmailField(isEmail, p, "email", Some(EmailMaxLength));
    var errors := ErrorOf(password) + ErrorOf(name) + ErrorOf(username) + ErrorOf(email)
                  + Extras(p, CreateFieldNames);
    if errors != {} then Err(errors)
    else
      var c := UserCreate(password.value, name.value, username.value, email.value);
      assert p.Keys == CreatePayload(c).Keys;
      Ok(c)
  }

  /** Every valid record is accepted from its own encoding. */
  lemma ParseUserCreateAccepts(isEmail: EmailCheck, c: UserCreate)
    requires ValidCreate(isEmail, c)
    ensures ParseUserCreate(isEmail, CreatePayload(c)) == Ok(c)
  {
    assert Extras(CreatePayload(c), CreateFieldNames) == {};
  }

  /** The bounds the schema enforces on an accepted record (name 5..256, username 3..64,
      email at most 256), e.g. a four-character name or a 65-character username is refused. */
  lemma CreateBounds(isEmail: EmailCheck, p: Payload)
    requires ParseUserCreate(isEmail, p).Ok?
    ensures var c := ParseUserCreate(isEmail, p).value;
      5 <= |c.name| <= 256 && 3 <= |c.username| <= 64 && |c.email| <= 256 && |c.password| >= 8
  {
  }

  // ---------------------------------------------------------------- UserUpdate

  const UpdateFieldNames: set<string> := {"password", "name", "username", "email"}

  /** Python truthiness of an optional string. */
  predicate Truthy(s: Option<string>) {
    s.Some? && s.value != ""
  }

  ghost predicate OptWithin(s: Option<string>, b: Bounds) {
    s.Some? ==> Within(s.value, b)
  }

  ghost predicate ValidUpdate(isEmail: EmailCheck, u: UserUpdate) {
    Strong(u.password) && OptWithin(u.name, NameBounds) && OptWithin(u.username, UsernameBounds)
    && (u.email.Some? ==> ValidEmail(isEmail, u.email.value, Some(EmailMaxLength)))
    && (Truthy(u.name) || Truthy(u.username) || Truthy(u.email))
  }

  /** How a supplied optional field appears in a payload: absent when None. */
  function OptEntry(p: Payload, f: string, v: Option<string>): Payload {
    if v.Some? then p[f := VStr(v.value)] else p
  }

  function UpdatePayload(u: UserUpdate): Payload {
    OptEntry(OptEntry(OptEntry(map["password" := VStr(u.password)], "name", u.name), "username", u.username), "email", u.email)
  }

  /** A payload entry that is absent or null. */
  predicate Unset(p: Payload, f: string) {
    f !in p || p[f] == VNull
  }

  /** `UserUpdate(**p)`: the optional fields not supplied stay None; supplied ones obey the
      bounds of `UserCreate`; and `check_at_least_one_field` runs after the fields passed. */
  function ParseUserUpdate(isEmail: EmailCheck, p: Payload): (r: Result<UserUpdate, set<FieldError>>)
    ensures r.Ok? ==> ValidUpdate(isEmail, r.value) && p.Keys <= UpdateFieldNames
    ensures r.Ok? ==> "password" in p && p["password"] == VStr(r.value.password)
    ensures r.Ok? ==>
      && (r.value.name.None? <==> Unset(p, "name"))
      && (r.value.username.None? <==> Unset(p, "username"))
      && (r.value.email.None? <==> Unset(p, "email"))
    ensures r.Ok? ==>
      && (r.value.name.Some? ==> p["name"] == VStr(r.value.name.value))
      && (r.value.username.Some? ==> p["username"] == VStr(r.value.username.value))
      && (r.value.email.Some? ==> p["email"] == VStr(r.value.email.value))
    ensures r.Err? ==> r.error != {}
    ensures forall k :: k in p && k !in UpdateFieldNames ==> r.Err? && ExtraForbidden(k) in r.error
  {
    var password := PasswordField(p, "password");
    var name := OptStrField(p, "name", NameBounds);
    var username := OptStrField(p, "username", UsernameBounds);
    var email := OptEmailField(isEmail, p, "email", Some(EmailMaxLength));
    var errors := ErrorOf(password) + ErrorOf(name) + ErrorOf(username) + ErrorOf(email)
                  + Extras(p, UpdateFieldNames);
    if errors != {} then Err(errors)
    else if !(Truthy(name.value) || Truthy(username.value) || Truthy(email.value)) then Err({NothingToUpdate})
    else Ok(UserUpdate(password.value, name.value, username.value, email.value))
  }

  /** A valid update is accepted from its own encoding. */
  lemma ParseUserUpdateAccepts(isEmail: EmailCheck, u: UserUpdate)
    requires ValidUpdate(isEmail, u)
    ensures ParseUserUpdate(isEmail, UpdatePayload(u)) == Ok(u)
  {
    var p := UpdatePayload(u);
    assert p.Keys <= UpdateFieldNames;
    assert Extras(p, UpdateFieldNames) == {};
  }

  /** A valid password alone updates nothing and is refused by the model validator. */
  lemma UpdateNeedsAField(isEmail: EmailCheck, password: string)
    requires Strong(password)
    ensures ParseUserUpdate(isEmail, map["password" := VStr(password)]) == Err({NothingToUpdate})
  {
    var p := map["password" := VStr(password)];
    assert Extras(p, UpdateFieldNames) == {};
  }

  // ---------------------------------------------------------------- UserChangePassword

  const ChangePasswordFieldNames: set<string> := {"current_password", "new_password"}

  /** `UserChangePassword(**p)`: only the new password is strength-checked; the current one
      needs only eight characters; `check_passwords_equals` refuses equal passwords. */
  function ParseUserChangePassword(p: Payload): (r: Result<UserChangePassword, set<FieldError>>)
    ensures r.Ok? ==> r.value.currentPassword != r.value.newPassword
    ensures r.Ok? ==> Strong(r.value.newPassword) && |r.value.currentPassword| >= 8
    ensures r.Ok? ==> p == map["current_password" := VStr(r.value.currentPassword),
                               "new_password" := VStr(r.value.newPassword)]
    ensures r.Err? ==> r.error != {}
    ensures forall k :: k in p && k !in ChangePasswordFieldNames ==> r.Err? && ExtraForbidden(k) in r.error
  {
    var current := StrField(p, "current_password", PasswordBounds);
    var newPassword := PasswordField(p, "new_password");
    var errors := ErrorOf(current) + ErrorOf(newPassword) + Extras(p, ChangePasswordFieldNames);
    if errors != {} then Err(errors)
    else if current.value == newPassword.value then Err({SamePassword})
    else
      var c := UserChangePassword(current.value, newPassword.value);
      assert p.Keys == ChangePasswordFieldNames;
      Ok(c)
  }

  /** Equal passwords are refused whatever they are, even a strong one. */
  lemma SamePasswordRefused(password: string)
    requires Strong(password)
    ensures ParseUserChangePassword(map["current_password" := VStr(password), "new_password" := VStr(password)])
            == Err({SamePassword})
  {
    var p := map["current_password" := VStr(password), "new_password" := VStr(password)];
    assert Extras(p, ChangePasswordFieldNames) == {};
  }

  /** A weak current password is accepted as long as it has eight characters. */
  lemma CurrentPasswordNotStrengthChecked(current: string, newPassword: string)
    requires |current| >= 8 && Strong(newPassword) && current != newPassword
    ensures ParseUserChangePassword(map["current_password" := VStr(current), "new_password" := VStr(newPassword)])
            == Ok(UserChangePassword(current, newPassword))
  {
    var p := map["current_password" := VStr(current), "new_password" := VStr(newPassword)];
    assert Extras(p, ChangePasswordFieldNames) == {};
  }

  // ---------------------------------------------------------------- UserLogin, UserDelete

  const LoginFieldNames: set<string> := {"password", "email"}

  /** `UserLogin(**p)`: the password must pass the strength rule; the email only its syntax. */
  function ParseUserLogin(isEmail: EmailCheck, p: Payload): (r: Result<UserLogin, set<FieldError>>)
    ensures r.Ok? ==> Strong(r.value.password) && isEmail(r.value.email)
    ensures r.Ok? ==> p == map["password" := VStr(r.value.password), "email" := VStr(r.value.email)]
    ensures r.Err? ==> r.error != {}
    ensures forall k :: k in p && k !in LoginFieldNames ==> r.Err? && ExtraForbidden(k) in r.error
  {
    var password := PasswordField(p, "password");
    var email := EmailField(isEmail, p, "email", None);
    var errors := ErrorOf(password) + ErrorOf(email) + Extras(p, LoginFieldNames);
    if errors != {} then Err(errors)
    else
      var l := UserLogin(password.value, email.value);
      assert p.Keys == LoginFieldNames;
      Ok(l)
  }

  /** A strong password and a syntactically valid email are all a login needs. */
  lemma ParseUserLoginAccepts(isEmail: EmailCheck, password: string, email: string)
    requires Strong(password) && isEmail(email)
    ensures ParseUserLogin(isEmail, map["password" := VStr(password), "email" := VStr(email)])
            == Ok(UserLogin(password, email))
  {
    var p := map["password" := VStr(password), "email" := VStr(email)];
    assert Extras(p, LoginFieldNames) == {};
  }

  const DeleteFieldNames: set<string> := {"password"}

  /** `UserDelete(**p)`: a confirmation password of at least eight characters. */
  function ParseUserDelete(p: Payload): (r: Result<UserDelete, set<FieldError>>)
    ensures r.Ok? ==> |r.value.password| >= 8 && p == map["password" := VStr(r.value.password)]
    ensures r.Err? ==> r.error != {}
    ensures forall k :: k in p && k !in DeleteFieldNames ==> r.Err? && ExtraForbidden(k) in r.error
  {
    var password := StrField(p, "password", PasswordBounds);
    var errors := ErrorOf(password) + Extras(p, DeleteFieldNames);
    if errors != {} then Err(errors)
    else
      assert p.Keys == DeleteFieldNames;
      Ok(UserDelete(password.value))
  }

  /** Any confirmation password of eight or more characters is accepted, strong or not. */
  lemma ParseUserDeleteAccepts(password: string)
    requires |password| >= 8
    ensures ParseUserDelete(map["password" := VStr(password)]) == Ok(UserDelete(password))
  {
    var p := map["password" := VStr(password)];
    assert Extras(p, DeleteFieldNames) == {};
  }

  // ---------------------------------------------------------------- UserRead

  const ReadFieldNames: set<string> := {"id", "name", "username", "email", "is_master"}

  /** `user.model_dump(mode="json")`: exactly the five public fields, the id as its string. */
  function DumpRead(v: UserRead): (j: Json)
    ensures j.JObject? && j.fields.Keys == ReadFieldNames && "hashed_password" !in j.fields
  {
    JObject(map["id" := VStr(UuidString(v.id)), "name" := VStr(v.name), "username" := VStr(v.username),
                "email" := VStr(v.email), "is_master" := VBool(v.isMaster)])
  }

  function UuidField(p: Payload, f: string): Result<Uuid, FieldError> {
    if f !in p then Err(Missing(f))
    else match p[f]
      case VStr(s) => (match ParseUuid(s) case Some(u) => Ok(u) case None => Err(NotAUuid(f)))
      case _ => Err(NotAUuid(f))
  }

  function BoolField(p: Payload, f: string): Result<bool, FieldError> {
    if f !in p then Err(Missing(f))
    else match p[f]
      case VBool(b) => Ok(b)
      case _ => Err(NotABool(f))
  }

  /** `UserRead.model_validate(j)` on decoded JSON. */
  function ParseUserRead(isEmail: EmailCheck, j: Json): (r: Result<UserRead, set<FieldError>>)
    ensures r.Ok? ==> isEmail(r.value.email) && j.JObject? && j.fields.Keys == ReadFieldNames
    ensures r.Ok? ==>
      && j.fields["id"].VStr? && ParseUuid(j.fields["id"].s) == Some(r.value.id)
      && j.fields["name"] == VStr(r.value.name) && j.fields["username"] == VStr(r.value.username)
      && j.fields["email"] == VStr(r.value.email) && j.fields["is_master"] == VBool(r.value.isMaster)
    ensures r.Err? ==> r.error != {}
  {
    match j
    case JScalar(_) => Err({NotAnObject})
    case JObject(p) =>
      var id := UuidField(p, "id");
      var name := StrField(p, "name", Bounds(0, None));
      var username := StrField(p, "username", Bounds(0, None));
      var email := EmailField(isEmail, p, "email", None);
      var isMaster := BoolField(p, "is_master");
      var errors := ErrorOf(id) + ErrorOf(name) + ErrorOf(username) + ErrorOf(email)
                    + ErrorOf(isMaster) + Extras(p, ReadFieldNames);
      if errors != {} then Err(errors)
      else Ok(UserRead(id.value, name.value, username.value, email.value, isMaster.value))
  }

  /** Dumping a view and validating the dump gives the view back, when its email is valid. */
  lemma ReadRoundTrip(isEmail: EmailCheck, v: UserRead)
    requires isEmail(v.email)
    ensures ParseUserRead(isEmail, DumpRead(v)) == Ok(v)
  {
    ParseUuidString(v.id);
    assert Extras(DumpRead(v).fields, ReadFieldNames) == {};
  }

  /** A snapshot holding only a username is refused. */
  lemma PartialSnapshotRefused(isEmail: EmailCheck)
    ensures ParseUserRead(isEmail, JObject(map["username" := VStr("ash")])).Err?
  {
  }
}
