/** app/exceptions/__init__.py: the application's error classes. Each error carries a message
    and an `extensions` dictionary whose "code" entry defaults to the class name. */
module Exceptions {
  import opened Wrappers
  import opened Strings

  datatype ErrorClass =
    | AppErrorBase
    | NotFound | Conflict | Unauthorized | Forbidden
    | UserNotFound | DuplicateEmail | DuplicateUsername
    | InvalidCredentials | PermissionDenied | ExpiredSession

  /** `self.__class__.__name__`. */
  function ClassName(c: ErrorClass): string {
    match c
    case AppErrorBase => "AppError"
    case NotFound => "NotFoundError"
    case Conflict => "ConflictError"
    case Unauthorized => "UnauthorizedError"
    case Forbidden => "ForbiddenError"
    case UserNotFound => "UserNotFoundError"
    case DuplicateEmail => "DuplicateEmailError"
    case DuplicateUsername => "DuplicateUsernameError"
    case InvalidCredentials => "InvalidCredentialsError"
    case PermissionDenied => "PermissionDeniedError"
    case ExpiredSession => "ExpiredSessionError"
  }

  /** The class each one derives from; `AppError` itself derives from GraphQL's error type,
      which is outside the hierarchy modelled here. */
  function Parent(c: ErrorClass): Option<ErrorClass> {
    match c
    case AppErrorBase => None
    case NotFound | Conflict | Unauthorized | Forbidden => Some(AppErrorBase)
    case UserNotFound => Some(NotFound)
    case DuplicateEmail | DuplicateUsername => Some(Conflict)
    case InvalidCredentials | PermissionDenied | ExpiredSession => Some(Unauthorized)
  }

  function Depth(c: ErrorClass): nat {
    match Parent(c)
    case None => 0
    case Some(p) => (match p case AppErrorBase => 1 case _ => 2)
  }

  /** `issubclass(c, ancestor)`. */
  predicate IsA(c: ErrorClass, ancestor: ErrorClass)
    decreases Depth(c)
  {
    c == ancestor || (Parent(c).Some? && Depth(Parent(c).value) < Depth(c) && IsA(Parent(c).value, ancestor))
  }

  type Extensions = map<string, string>

  datatype AppError = AppError(cls: ErrorClass, message: string, extensions: Extensions)

  /** `AppError.__init__`: a missing dictionary becomes an empty one, and "code" is set to the
      class name unless the caller already supplied one. */
  function MakeAppError(cls: ErrorClass, message: string, extensions: Option<Extensions>): (e: AppError)
    ensures e.cls == cls && e.message == message
    ensures "code" in e.extensions
    ensures extensions.Some? ==> forall k :: k in extensions.value ==> k in e.extensions && e.extensions[k] == extensions.value[k]
    ensures forall k :: k in e.extensions ==> k == "code" || (extensions.Some? && k in extensions.value)
    ensures (extensions.None? || "code" !in extensions.value) ==> e.extensions["code"] == ClassName(cls)
  {
    var given := extensions.GetOr(map[]);
    var ext := if "code" in given then given else given["code" := ClassName(cls)];
    AppError(cls, message, ext)
  }

  /** What every subclass constructor produces: no caller extensions, so the only entry is the
      class name under "code". */
  predicate Constructed(e: AppError) {
    e.extensions == map["code" := ClassName(e.cls)]
  }

  function NotFoundError(message: string := "Recurso não encontrado"): (e: AppError)
    ensures e.cls == NotFound && e.message == message && Constructed(e)
  {
    MakeAppError(NotFound, message, None)
  }

  function ConflictError(message: string := "Conflito de dados."): (e: AppError)
    ensures e.cls == Conflict && e.message == message && Constructed(e)
  {
    MakeAppError(Conflict, message, None)
  }

  function UnauthorizedError(message: string := "Não autorizado."): (e: AppError)
    ensures e.cls == Unauthorized && e.message == message && Constructed(e)
  {
    MakeAppError(Unauthorized, message, None)
  }

  function ForbiddenError(message: string := "Acesso proibido."): (e: AppError)
    ensures e.cls == Forbidden && e.message == message && Constructed(e)
  {
    MakeAppError(Forbidden, message, None)
  }

  const UserNotFoundMessage: string :=
    "Você lançou 'Localizar Criatura', mas… não houve sucesso." + "Esse usuário não existe."

  function UserNotFoundError(): (e: AppError)
    ensures e.cls == UserNotFound && e.message == UserNotFoundMessage && Constructed(e)
  {
    MakeAppError(UserNotFound, UserNotFoundMessage, None)
  }

  /** The conflict message names the offending email. */
  function DuplicateEmailError(email: string): (e: AppError)
    ensures e.cls == DuplicateEmail && Constructed(e)
    ensures Contains(e.message, email)
  {
    var prefix := "Não aceitamos doppelganger, " + "usuário já cadastrado com o email: ";
    InfixContained(prefix, email, ".");
    MakeAppError(DuplicateEmail, prefix + email + ".", None)
  }

  /** The conflict message names the offending username. */
  function DuplicateUsernameError(username: string): (e: AppError)
    ensures e.cls == DuplicateUsername && Constructed(e)
    ensures Contains(e.message, username)
  {
    var prefix := "Não aceitamos doppelganger, " + "usuário já cadastrado com o nickname: ";
    InfixContained(prefix, username, ".");
    MakeAppError(DuplicateUsername, prefix + username + ".", None)
  }

  const InvalidCredentialsMessage: string :=
    "Senha inválida. Um gnomo aleatório explode no fundo. " + "Coincidência? Provavelmente."

  function InvalidCredentialsError(): (e: AppError)
    ensures e.cls == InvalidCredentials && e.message == InvalidCredentialsMessage && Constructed(e)
  {
    MakeAppError(InvalidCredentials, InvalidCredentialsMessage, None)
  }

  const PermissionDeniedMessage: string :=
    "OH OH OH, já viu mago lançar magia sem preparar. Vai lá fazer login"
    + " e aí depois tentar fazer o que pretendia."

  function PermissionDeniedError(): (e: AppError)
    ensures e.cls == PermissionDenied && e.message == PermissionDeniedMessage && Constructed(e)
  {
    MakeAppError(PermissionDenied, PermissionDeniedMessage, None)
  }

  const ExpiredSessionMessage: string :=
    "Sua aventura demorou demais e o pergaminho (sessão) venceu. " + "Faça login novamente."

  function ExpiredSessionError(): (e: AppError)
    ensures e.cls == ExpiredSession && e.message == ExpiredSessionMessage && Constructed(e)
  {
    MakeAppError(ExpiredSession, ExpiredSessionMessage, None)
  }

  /** Every class is an `AppError`; the three credential errors are `UnauthorizedError`s, the
      two duplicates `ConflictError`s; no conflict is an authorisation failure. */
  lemma Hierarchy(c: ErrorClass)
    ensures IsA(c, AppErrorBase)
    ensures IsA(c, Unauthorized) <==>
      c == Unauthorized || c == InvalidCredentials || c == PermissionDenied || c == ExpiredSession
    ensures IsA(c, Conflict) <==> c == Conflict || c == DuplicateEmail || c == DuplicateUsername
    ensures IsA(c, NotFound) <==> c == NotFound || c == UserNotFound
  {
    match c
    case AppErrorBase =>
    case NotFound =>
    case Conflict =>
    case Unauthorized =>
    case Forbidden =>
    case UserNotFound =>
    case DuplicateEmail =>
    case DuplicateUsername =>
    case InvalidCredentials =>
    case PermissionDenied =>
    case ExpiredSession =>
  }

  /** A caller-supplied code is kept; otherwise the class name fills it in. */
  lemma CallerCodeKept(cls: ErrorClass, message: string, code: string)
    ensures MakeAppError(cls, message, Some(map["code" := code])).extensions == map["code" := code]
    ensures MakeAppError(cls, message, Some(map[])).extensions == map["code" := ClassName(cls)]
  {
  }
}
