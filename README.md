# User accounts backend: a Dafny model

This project models the core of a small user-account backend. The backend is written in
Python on GraphQL, SQLAlchemy, pydantic and Redis. The model covers:

- **Input rules.** The password-strength rule, the session-token syntax check, and the
  pydantic input schemas. Each schema is a validation function that returns the record or a
  non-empty set of field errors.
- **The `users` table.** It is a map from id to record. The model includes its column widths,
  NOT NULL columns, the `is_master` default and the email and username unique indexes. It
  also includes the error text PostgreSQL reports when a flushed change breaks one of them.
- **The ORM session.** The `Session` class holds the current rows, the changes staged for the
  next flush, the committed rows, and counters of commits and rollbacks. Flush applies the
  staged changes in order and stops at the first failure. Commit flushes and then makes the
  rows durable. Rollback restores the committed rows.
- **The repository and two transactional services.** Each service operation has a
  specification function from the committed table to the result and the new table. The class
  method follows the source's steps against the session and is proved equal to that function.
  The properties are proved about the functions.
- **The Redis session store.** The `Redis` class holds data, time-to-live and a ghost log of
  the commands issued. The session service works on top of it.
- **The request context.** It holds the lazily built services, sets the session cookie, and
  authenticates a request through its fixed sequence of guards.
- **The error classes** and the GraphQL error formatter.
- **The attribute filter of `Base.__repr__`.**

Collaborators whose code is not part of this model become parameters:

- Password hashing is `Crypto(hash, verify)`. `Security.Sound` is the one assumption some
  lemmas make: `verify(p, hash(p))`. `app/utils/security.py` is not part of this model.
- JSON encoding is `JsonCodec(dumps, loads)`; decoding may fail. `SessionService.Lossless`
  is the assumption the round-trip lemmas make.
- `EmailStr` syntax is an abstract predicate, `EmailCheck`.
- The random ids (`uuid4`) are supplied by the caller.

UUID syntax is the canonical 8-4-4-4-12 hexadecimal form. Because `UUID(value, version=4)`
overwrites the version bits, `is_uuid4` accepts exactly the strings that parse.

Database errors reach the services as PostgreSQL's message text. For a unique violation that
text includes the DETAIL line, which repeats the offending value. The service's translation
is a substring search for the index name over that whole text. A username conflict on a
username that itself contains `ix_users_email` is therefore reported as a duplicate email.
The model keeps this behaviour as written, and `UserService.UsernameSpelledLikeEmailIndex`
exhibits it.

## Model

| member | source | states |
|---|---|---|
| Validators.ValidatePasswordStrength | app/utils/validators.py:6-21 | accepted exactly when length ≥ 8, an A–Z letter, a digit and a special character are all present; an accepted password is returned unchanged; each rejection reason holds exactly when the earlier rules pass and its own rule fails, so the checks run in the order length, upper case, digit, special |
| Validators.Search | app/utils/validators.py:10-19 | `re.search` over a character class: the leftmost matching position, or none exactly when no character of the class occurs |
| Validators.NoUppercaseExamples | app/utils/validators.py:10-11 | "invalidpassword" and "1nv4l1dp4ssw0rd" are rejected for lacking an upper-case letter |
| Validators.NoDigitExamples | app/utils/validators.py:13-14 | "invalidPassword" and "InvalidP@ssword" are rejected for lacking a digit |
| Validators.AcceptedExample | app/utils/validators.py:21 | "Abcdef1!" is accepted and returned unchanged |
| Validators.IsUuid4 | app/utils/validators.py:24-29 | true exactly for a string that parses as a UUID; any other value, string or not, gives false and never an exception |
| Validators.IsUuid4RejectsText | app/utils/validators.py:24-29 | the text "faker.uuid4()" is rejected |
| UserSchemas.Extras | app/schemas/base_schema.py:5 | no error exactly when every key is declared; each undeclared key yields its own error |
| UserSchemas.ParseUserCreate | app/schemas/user_schema.py:11-23 | an accepted payload is exactly the encoding of a record with name 5..256, username 3..64, a syntactically valid email ≤ 256 and a strong password; a rejection carries at least one error; any undeclared key is rejected |
| UserSchemas.ParseUserCreateAccepts | app/schemas/user_schema.py:20-23 | every valid record is accepted from its own encoding |
| UserSchemas.CreateBounds | app/schemas/user_schema.py:21-23 | any accepted record obeys the length bounds and the password rule |
| UserSchemas.ParseUserUpdate | app/schemas/user_schema.py:26-39 | fields left out stay None; supplied ones obey the create bounds; the password must be strong; at least one of name, username, email is truthy; undeclared keys are rejected |
| UserSchemas.ParseUserUpdateAccepts | app/schemas/user_schema.py:26-29 | a valid update is accepted from its own encoding |
| UserSchemas.UpdateNeedsAField | app/schemas/user_schema.py:31-39 | a strong password alone is refused by the model validator and by nothing else |
| UserSchemas.ParseUserChangePassword | app/schemas/user_schema.py:42-55 | an accepted change has a strong new password, a current password of at least 8 characters, and the two differ |
| UserSchemas.SamePasswordRefused | app/schemas/user_schema.py:51-55 | equal current and new passwords are refused, even when strong |
| UserSchemas.CurrentPasswordNotStrengthChecked | app/schemas/user_schema.py:43-49 | a weak current password of 8 or more characters is accepted with a strong, different new one |
| UserSchemas.ParseUserLogin | app/schemas/user_schema.py:58-59 | an accepted login has a strong password and a syntactically valid email, and nothing else |
| UserSchemas.ParseUserLoginAccepts | app/schemas/user_schema.py:58-59 | conversely, any strong password with any syntactically valid email is accepted as that login |
| UserSchemas.ParseUserDelete | app/schemas/user_schema.py:62-63 | an accepted delete has exactly one password of at least 8 characters |
| UserSchemas.ParseUserDeleteAccepts | app/schemas/user_schema.py:62-63 | conversely, any password of 8 or more characters, strong or not, is accepted |
| UserSchemas.DumpRead | app/schemas/user_schema.py:66-71 | the dump of a view has exactly the five public fields and never a password hash |
| UserSchemas.ParseUserRead | app/schemas/user_schema.py:66-71 | an accepted snapshot has exactly the five fields and a valid email, and the view holds the snapshot's values: the id its text parses to, the name, username, email and flag as given |
| UserSchemas.ReadRoundTrip | app/schemas/user_schema.py:66-71 | validating the dump of a view whose email is valid gives that view back |
| UserSchemas.PartialSnapshotRefused | app/schemas/user_schema.py:66-71 | a snapshot holding only a username is refused |
| UserModel.Materialize | app/models/user_model.py:10-20 | an insert succeeds exactly when the four required columns are set and fit their widths; the row keeps every value and `is_master` defaults to false; failures are NOT NULL or width errors |
| UserModel.ApplyChange | app/models/user_model.py:11-16 | a write that succeeds on a well-formed table leaves it well formed: ids key their rows, rows fit, and emails and usernames stay unique |
| UserModel.ApplyAllFailureSticks | app/models/user_model.py:11-16 | once a prefix of a flush fails, the whole flush fails with that error |
| UserModel.InsertDuplicateFails | app/models/user_model.py:11-16 | a second insert with a taken email fails on `ix_users_email`, with a taken username on `ix_users_username`, and otherwise adds exactly that row |
| UserModel.NotNullAndDefault | app/models/user_model.py:10-20 | a missing name or username is a NOT NULL violation; an unset `is_master` is false |
| UserModel.Lookup | app/repositories/user_repository.py:13-17 | the record with that id, or none exactly when the id is absent |
| UserModel.ByEmail | app/repositories/user_repository.py:19-23 | the record with that email, or none exactly when no row has it |
| UserModel.View | app/services/user_service.py:59 | the public projection keeps id, name, username, email and `is_master` |
| DbSession.Session.Flush | app/services/user_service.py:57 | on success the rows become the staged changes applied in order and nothing stays staged; on failure it returns the first error and rows and staged changes are untouched |
| DbSession.Session.Commit | app/services/user_service.py:33 | flushes, then makes the rows durable and counts one commit; a failing flush changes nothing |
| DbSession.Session.Rollback | app/services/user_service.py:35 | restores the committed rows, drops staged changes, counts one rollback |
| UserRepository.UserRepository.GetById | app/repositories/user_repository.py:13-17 | returns the `Lookup` of the id in the current rows |
| UserRepository.UserRepository.GetByEmail | app/repositories/user_repository.py:19-23 | returns the unique row with that email, or none |
| UserRepository.UserRepository.Add | app/repositories/user_repository.py:25-26 | only stages one insert; no uniqueness pre-check and no commit |
| UserRepository.UserRepository.Delete | app/repositories/user_repository.py:28-29 | only stages one delete of that id |
| UserRepository.UserRepository.Refresh | app/repositories/user_repository.py:31-32 | re-reads the record from the current rows |
| UserService.DbExc | app/services/user_service.py:34 | an engine error surfaces as an integrity error exactly when it is a NOT NULL or unique violation |
| UserService.Translate | app/services/user_service.py:36-43 | an integrity error whose text names `ix_users_email` with a truthy email becomes `DuplicateEmailError` for it; failing that, one naming `ix_users_username` with a truthy username becomes `DuplicateUsernameError`; any other integrity error and every other error pass unchanged |
| UserService.CreateSpec | app/services/user_service.py:48-59 | success exactly when the id is new, the record fits, and neither email nor username is taken; on success the table gains exactly the record with the hashed password and `is_master` false, and the result is its view; on failure the table is unchanged; well-formedness is kept |
| UserService.Patched | app/services/user_service.py:70-74 | each supplied field replaces the stored one; id, password hash and `is_master` never change |
| UserService.SetAllDumpIsPatched | app/services/user_service.py:70-74 | running the `setattr` loop over the dumped fields, password skipped, gives the patched record |
| UserService.ApplyUpdate | app/services/user_service.py:70-74 | the imperative loop returns the patched record |
| UserService.UpdateSpec | app/services/user_service.py:61-78 | not-found is checked before the password; success exactly when the password verifies, the patched record fits and no other row holds its email or username; on success only that row changes, to the patched record; every failure leaves the table unchanged |
| UserService.GetSpec | app/services/user_service.py:80-86 | the view of the record, or `UserNotFoundError` exactly when the id is absent; the table never changes |
| UserService.DeleteSpec | app/services/user_service.py:88-98 | not-found before the password check; success exactly when the password verifies, and then exactly that row is removed and every other row is kept; every failure leaves the table unchanged |
| UserService.UniqueTextNamesIndex | app/services/user_service.py:37-41 | the engine's text for a unique violation contains the index name the translation looks for |
| UserService.CreateDuplicateEmail | app/services/user_service.py:38-39 | creating with a taken, non-empty email gives `DuplicateEmailError` for that email and writes nothing |
| UserService.CreateDuplicateUsername | app/services/user_service.py:40-41 | creating with a taken username, email free, gives `DuplicateUsernameError` for that username and writes nothing |
| UserService.UsernameSpelledLikeEmailIndex | app/services/user_service.py:37-39 | a username conflict on the username "ix_users_email" is reported as `DuplicateEmailError` |
| UserService.CreateTooLongNotTranslated | app/services/user_service.py:43 | a too-long name is a data error, re-raised untranslated, and nothing is written |
| UserService.UpdateDuplicateEmail | app/services/user_service.py:61-78 | changing the email to one another row holds gives `DuplicateEmailError` and changes nothing |
| UserService.UpdateThenGet | app/services/user_service.py:61-86 | after a successful update, reading the id gives the same view the update returned |
| UserService.DeleteThenGet | app/services/user_service.py:80-98 | after a successful delete, reading the id gives `UserNotFoundError` |
| UserService.UserService.Transaction | app/services/user_service.py:29-46 | commits once exactly when the body and the commit succeed; otherwise rolls back once, never commits, restores the committed rows and translates integrity errors |
| UserService.UserService.FlushThenRefresh | app/services/user_service.py:57-58 | the flush of the one staged change, then the view of the written record; a failing flush leaves the rows as they were |
| UserService.UserService.CreateUser | app/services/user_service.py:48-59 | result and new table are those of `CreateSpec`; one commit on success, one rollback and no commit on failure |
| UserService.UserService.UpdateUser | app/services/user_service.py:61-78 | result and new table are those of `UpdateSpec`, with the same commit and rollback counts |
| UserService.UserService.GetUserById | app/services/user_service.py:80-86 | result is that of `GetSpec`; the table is unchanged; commit or rollback as above |
| UserService.UserService.DeleteUser | app/services/user_service.py:88-98 | result and new table are those of `DeleteSpec`, with the same commit and rollback counts |
| UserAuthService.LoginSpec | app/services/user_auth_service.py:33-44 | `UserNotFoundError` exactly when no row has the email; success exactly when a row with the email verifies the password, and then it returns that row's view; the table never changes |
| UserAuthService.ChangePasswordSpec | app/services/user_auth_service.py:46-62 | not-found before the credential check; success exactly when the current password verifies; then only that row's hash changes, to the hash of the new password, and the result is the row's view |
| UserAuthService.CreateThenLogin | app/services/user_auth_service.py:33-44 | an account just created logs in with its password and gets its view |
| UserAuthService.ChangeThenLogin | app/services/user_auth_service.py:46-62 | after a change the new password logs in, and the old one fails unless it also verifies against the new hash |
| UserAuthService.UserAuthService.Transaction | app/services/user_auth_service.py:24-31 | commit once on success; any error rolls back once and is re-raised unchanged, with no translation |
| UserAuthService.UserAuthService.LoginUser | app/services/user_auth_service.py:33-44 | result is that of `LoginSpec`; the table is unchanged; one commit on success, one rollback on failure |
| UserAuthService.UserAuthService.StoreHash | app/services/user_auth_service.py:59-62 | the staged hash update is flushed and the refreshed record's view returned |
| UserAuthService.UserAuthService.ChangePassword | app/services/user_auth_service.py:46-62 | result and new table are those of `ChangePasswordSpec`, with the same commit and rollback counts |
| SessionService.KeyForSession | app/services/session_service.py:15-16 | the key is "session:" followed by the canonical text of the id |
| SessionService.KeyForSessionInjective | app/services/session_service.py:15-16 | distinct ids get distinct keys, and the id can be read back from its key |
| SessionService.Restore | app/services/session_service.py:34-40 | absent exactly when the stored value is missing or empty; a value `json.loads` rejects gives the decoding error; a decoded value `UserRead` rejects gives a validation error carrying exactly its field errors; a decoded value `UserRead` accepts is returned as that view, and a view is returned only in that case |
| SessionService.SnapshotRoundTrip | app/services/session_service.py:18-40 | a snapshot written by `create_session` reads back as the same view |
| SessionService.SessionService.CreateSession | app/services/session_service.py:18-26 | stores the encoded view under the id's key with a time-to-live of 5400, issues one SETEX, and returns the id |
| SessionService.SessionService.GetUserIdFromSession | app/services/session_service.py:28-40 | the result is `Restore` of the stored value; a present, non-empty value has its time-to-live reset to 5400 before decoding; otherwise no EXPIRE is issued |
| SessionService.SessionService.DeleteSession | app/services/session_service.py:42-45 | the key is gone afterwards; DEL is issued only when EXISTS found the key |
| SessionService.SessionLifecycle | app/services/session_service.py:18-45 | a created session reads back as its view; after deletion it reads as absent |
| Context.SessionCookie | app/graphql/context.py:56-65 | cookie "session" carrying the id, max-age 5370, strictly less than the 5400 time-to-live, httponly, secure, samesite "strict", path "/" |
| Context.CookieGuard | app/graphql/context.py:68-73 | `PermissionDeniedError` exactly when the cookie is missing or empty; the id exactly when it parses; `ExpiredSessionError` otherwise |
| Context.AuthSpec | app/graphql/context.py:67-87 | the cookie guards decide first; then a decoding or validation error of the stored session passes through, an absent session is `ExpiredSessionError`, and a restored snapshot gives the current row for its id or `UserNotFoundError` when that id is gone; every error is one of these kinds |
| Context.LoggedInRequestAuthenticates | app/graphql/context.py:67-87 | a request carrying a live session's cookie authenticates as the stored record for that user |
| Context.DeletedUserOrSession | app/graphql/context.py:75-83 | a session whose user was deleted gives `UserNotFoundError`; once the session key is gone the cookie gives `ExpiredSessionError` |
| Context.Context.GetUserService | app/graphql/context.py:38-42 | built on first access, the same instance afterwards |
| Context.Context.GetUserAuthService | app/graphql/context.py:44-48 | built on first access, the same instance afterwards |
| Context.Context.GetSessionService | app/graphql/context.py:50-54 | built on first access, the same instance afterwards |
| Context.Context.SetCookie | app/graphql/context.py:56-65 | appends exactly `SessionCookie(id)` to the response cookies |
| Context.Context.AuthenticateUser | app/graphql/context.py:67-87 | returns true and binds `user` exactly when `AuthSpec` succeeds; otherwise returns its error and leaves `user` untouched; a malformed cookie contacts no store, and any stored session read has its time-to-live renewed |
| Context.Context.UserForSession | app/graphql/context.py:75-83 | the session read through the session service, then the user lookup by the snapshot's id |
| Exceptions.MakeAppError | app/exceptions/__init__.py:9-15 | keeps class and message; "code" is always present and is the class name unless the caller supplied one; caller keys are kept and no others are added |
| Exceptions.CallerCodeKept | app/exceptions/__init__.py:12-14 | a supplied code survives; an empty map gets the class name |
| Exceptions.NotFoundError | app/exceptions/__init__.py:18-22 | the given or the default message; the only extension is its class name as code |
| Exceptions.ConflictError | app/exceptions/__init__.py:25-29 | the given or the default message; the only extension is its class name as code |
| Exceptions.UnauthorizedError | app/exceptions/__init__.py:32-36 | the given or the default message; the only extension is its class name as code |
| Exceptions.ForbiddenError | app/exceptions/__init__.py:39-43 | the given or the default message; the only extension is its class name as code |
| Exceptions.UserNotFoundError | app/exceptions/__init__.py:46-53 | its fixed message and its own class name as code |
| Exceptions.DuplicateEmailError | app/exceptions/__init__.py:56-63 | the message contains the email; its own class name as code |
| Exceptions.DuplicateUsernameError | app/exceptions/__init__.py:66-73 | the message contains the username; its own class name as code |
| Exceptions.InvalidCredentialsError | app/exceptions/__init__.py:76-83 | its fixed message and its own class name as code |
| Exceptions.PermissionDeniedError | app/exceptions/__init__.py:86-93 | its fixed message and its own class name as code |
| Exceptions.ExpiredSessionError | app/exceptions/__init__.py:96-103 | its fixed message and its own class name as code |
| Exceptions.Hierarchy | app/exceptions/__init__.py:18-103 | every class is an `AppError`; the user-not-found error is a `NotFoundError`; the two duplicates are `ConflictError`s; the three credential errors are `UnauthorizedError`s; and no others are |
| ErrorFormatter.FirstMatch | app/utils/graphql_error_formatter.py:33-39 | the first handler whose pattern occurs, none exactly when no pattern occurs |
| ErrorFormatter.MatchedText | app/utils/graphql_error_formatter.py:27-31 | the patterns are matched against the original error's text when there is one, otherwise the formatted message, otherwise the empty text |
| ErrorFormatter.Format | app/utils/graphql_error_formatter.py:26-41 | the first handler whose pattern occurs in the original error's text, or else the formatted message, gives friendly message, code and the text as details; with no match the fallback dictionary is used |
| ErrorFormatter.FormatAll | app/utils/graphql_error_formatter.py:43-44 | one entry per error, in order, each its `Format` |
| ErrorFormatter.BuildErrorDict | app/utils/graphql_error_formatter.py:46-53 | the friendly text is shown as the message, with the handler's code, and the original text goes under details |
| ErrorFormatter.FormattedError | app/utils/graphql_error_formatter.py:55-62 | the formatted message, "Unknown error." when absent, both as message and details; the extensions' "code" when present, "UnknownError" otherwise |
| ErrorFormatter.UnmatchedAppErrorKeepsCode | app/utils/graphql_error_formatter.py:55-62 | an application error matching no pattern keeps its message and reports its code, the class name unless the raiser supplied one |
| ErrorFormatter.EarlierHandlerWins | app/utils/graphql_error_formatter.py:18-24 | a text holding "validation error" but neither "Cannot query field" nor "cannot represent a" gets the invalid-value code and message, whatever later patterns it holds |
| ErrorFormatter.ValidationBeforeNotDefined | app/utils/graphql_error_formatter.py:33-39 | "validation error: not defined" holds two patterns, and the earlier handler decides |
| ErrorFormatter.EmptyErrorDefaults | app/utils/graphql_error_formatter.py:55-62 | with no text at all the message is "Unknown error." and the code "UnknownError" |
| BaseModel.FilteredMembers | app/models/base_model.py:8-12 | exactly the attributes with a public name other than `hashed_password` survive |
| BaseModel.FilteredConcat | app/models/base_model.py:8-12 | filtering distributes over concatenation, so the original order is kept |
| BaseModel.FilteredIdempotent | app/models/base_model.py:8-12 | filtering twice removes nothing more |
| BaseModel.Parts | app/models/base_model.py:14 | one `name=value` part per attribute, in order |
| BaseModel.Repr | app/models/base_model.py:14-15 | the text is `<`, the class name and `(`, then exactly the `", "`-joined `name=value` parts of the filtered attributes, then `)>`; with nothing shown it is `<Class()>` |
| BaseModel.ReprOfFiltered | app/models/base_model.py:6-15 | the printed text is that of the filtered attributes alone, so in any dictionary order no private attribute and no hash reaches it |
| BaseModel.FilteredUser | app/models/base_model.py:8-12 | for a loaded user's dictionary in one population order, the ORM state and the hash are dropped and the id, name, username, email, flag and both timestamps are kept in that order |
| BaseModel.UserReprHidesHash | app/models/base_model.py:5-15 | for that dictionary the user prints as `<UserModel(id=…, name=…, username=…, email=…, is_master=…, created_at=…, updated_at=…)>`, without the hash |
| BaseModel.LoadedUserFiltered | app/models/base_model.py:6-12 | in whatever order the dictionary holds the ORM state, the hash and the public columns (the timestamps included), exactly the public columns survive; `BaseModel.FilteredConcat` keeps their order |

## Left out

- GraphQL resolvers, types, routes and the permission class are strawberry wiring. The errors they can surface are the result types of the modelled operations.
- Connection and process plumbing (engine, Redis client, settings, migrations, context getter) is I/O only.
- Asynchrony and concurrency: every operation runs as one sequential transaction.
- The ORM's identity map, autoflush and lazy loading are left out. `refresh` re-reads the current row, and an update is staged as one change of the whole row.
- The server-side `created_at` and `updated_at` values are generated by the database. The model has them only as repr texts in a user's attribute dictionary.
- The `uuid4` id defaults are caller-supplied ids. A clash with an existing id is the primary-key violation.
- Password hashing is a deterministic abstract function, without salts.
- `EmailStr`'s syntax check and its normalisation of the address are an abstract predicate; normalisation is not modelled.
- pydantic's lax coercions (numbers to strings and the like) are left out: values have the declared type or they are rejected.
- Python's lenient UUID spellings (braces, `urn:uuid:`, no hyphens) are left out; only the canonical form parses.
- The regex classes `\d` and `\s` are taken over ASCII, not full Unicode.
- Real time-to-live expiry is the Redis server removing a key from outside the model.
- The error text omits the driver's class-name prefix. It keeps the PostgreSQL message and DETAIL line the translation searches.
- graphql-core's own wrapping of resolver exceptions is collapsed into `ErrorFormatter.AsGraphQLError`.
- `AppError` extensions are values, so the aliasing of a caller's dictionary by `setdefault` is not modelled.
- `UserRead.model_validate(user)` on a stored record is the projection `View`; the stored email is not re-validated.
- `Base.__repr__` takes each value already rendered by `repr`; Python's string escaping inside `repr` is not modelled.
- The unique indexes are taken to be checked in the order primary key, `ix_users_email`, `ix_users_username`. When a write breaks both email and username, the model reports the email index. PostgreSQL does not document which index it reports first.
- BaseModel.FilteredUser: stated for one order of the dictionary: ORM state, the columns in declaration order, then the timestamps. `vars()` follows the order in which SQLAlchemy populated the instance, which the model does not fix. `BaseModel.LoadedUserFiltered` states what holds for every order.
- BaseModel.UserReprHidesHash: the printed text is worked out for that same order only. For another population order the parts appear in that order instead.
- UserService.CreateDuplicateUsername: weaker than the source's promise. Its hypothesis is that the error text does not contain the email index, rather than a condition on the username itself.
- ErrorFormatter.UnmatchedAppErrorKeepsCode: stated for any message matching no pattern, with that as a hypothesis. No concrete error message is worked through.
