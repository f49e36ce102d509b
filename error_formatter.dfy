/** app/utils/graphql_error_formatter.py with the codes of app/utils/error_code.py: every
    GraphQL error becomes a dictionary with a friendly message, a code and the original text.
    Five handlers are tried in a fixed order and the first whose pattern occurs wins. */
module ErrorFormatter {
  import opened Wrappers
  import opened Strings
  import opened Exceptions

  /** `ErrorCode`. */
  const InvalidArgumentType: string := "InvalidArgumentTypeError"
  const InvalidArgumentValue: string := "InvalidArgumentValueError"
  const InvalidQueryField: string := "InvalidQueryFieldError"
  const MissingRequiredInput: string := "MissingRequiredInputError"
  const UnexpectedInput: string := "UnexpectedInputError"
  const UnknownError: string := "UnknownError"

  datatype ErrorHandler = ErrorHandler(pattern: string, code: string, friendlyMsg: string)

  const ArcaneCouncilMessage: string :=
    "Sua tentativa ativou alertas, uma runa de segurança, "
    + "e provocou gargalhadas em todo o conselho arcano do sistema. "
    + "Dá uma revisada aí, nobre conjurador."

  const InvalidQueryFieldHandler: ErrorHandler := ErrorHandler(
    "Cannot query field", InvalidQueryField,
    "Você tentou abrir uma porta… mas ela era só um desenho na parede.")

  const InvalidTypeInputHandler: ErrorHandler := ErrorHandler(
    "cannot represent a", InvalidArgumentType, ArcaneCouncilMessage)

  const InvalidValueInputHandler: ErrorHandler := ErrorHandler(
    "validation error", InvalidArgumentValue, ArcaneCouncilMessage)

  const MissingRequiredInputHandler: ErrorHandler := ErrorHandler(
    "required type", MissingRequiredInput,
    "Seu feitiço falhou! Está faltando pelo menos um componente essencial. "
    + "Verifique seu grimório e tente novamente.")

  const UnexpectedInputHandler: ErrorHandler := ErrorHandler(
    "not defined", UnexpectedInput,
    "Já falamos que Crina de Leopardo não é o componente dessa magia. "
    + "Retire o componente, e fingimos que nada aconteceu.")

  /** `self.handlers`, in the order they are tried. */
  const Handlers: seq<ErrorHandler> := [
    InvalidQueryFieldHandler, InvalidTypeInputHandler, InvalidValueInputHandler,
    MissingRequiredInputHandler, UnexpectedInputHandler]

  /** `error.formatted`: its "message" and "extensions" entries, either of which may be absent. */
  datatype Formatted = Formatted(message: Option<string>, extensions: Option<map<string, string>>)

  /** A GraphQL error: the text of the exception it wraps, if any, and its formatted form. */
  datatype GraphQLError = GraphQLError(originalError: Option<string>, formatted: Formatted)

  datatype ErrorDict = ErrorDict(message: string, code: string, details: string)

  /** The text the patterns are matched against. */
  function MatchedText(e: GraphQLError): (text: string)
    ensures e.originalError.Some? ==> text == e.originalError.value
    ensures e.originalError.None? && e.formatted.message.Some? ==> text == e.formatted.message.value
    ensures e.originalError.None? && e.formatted.message.None? ==> text == ""
  {
    if e.originalError.Some? then e.originalError.value else e.formatted.message.GetOr("")
  }

  /** The first handler whose pattern occurs in the text. */
  function FirstMatch(handlers: seq<ErrorHandler>, text: string): (r: Option<nat>)
    ensures r.Some? ==>
      && r.value < |handlers| && Contains(text, handlers[r.value].pattern)
      && forall j :: 0 <= j < r.value ==> !Contains(text, handlers[j].pattern)
    ensures r.None? <==> forall j :: 0 <= j < |handlers| ==> !Contains(text, handlers[j].pattern)
    decreases |handlers|
  {
    if handlers == [] then None
    else if Contains(text, handlers[0].pattern) then Some(0)
    else
      match FirstMatch(handlers[1..], text)
      case None => None
      case Some(i) => Some(i + 1)
  }

  /** `_build_error_dict`. */
  function BuildErrorDict(message: string, code: string, friendlyMsg: string): (d: ErrorDict)
    ensures d.message == friendlyMsg && d.code == code && d.details == message
  {
    ErrorDict(friendlyMsg, code, message)
  }

  /** `_formatted_error`: the formatted message, "Unknown error." by default, the code from the
      extensions, "UnknownError" by default, and the message again as details. */
  function FormattedError(e: GraphQLError): (d: ErrorDict)
    ensures d.details == d.message
    ensures d.message == if e.formatted.message.Some? then e.formatted.message.value else "Unknown error."
    ensures e.formatted.extensions.Some? && "code" in e.formatted.extensions.value ==>
      d.code == e.formatted.extensions.value["code"]
    ensures (e.formatted.extensions.None? || "code" !in e.formatted.extensions.value) ==> d.code == UnknownError
  {
    var extensions := e.formatted.extensions.GetOr(map[]);
    var message := e.formatted.message.GetOr("Unknown error.");
    var code := if "code" in extensions then extensions["code"] else UnknownError;
    ErrorDict(message, code, message)
  }

  /** `format`. */
  function Format(e: GraphQLError): (d: ErrorDict)
    ensures forall i ::
              (&& 0 <= i < |Handlers| && Contains(MatchedText(e), Handlers[i].pattern)
               && (forall j :: 0 <= j < i ==> !Contains(MatchedText(e), Handlers[j].pattern)))
              ==> d == ErrorDict(Handlers[i].friendlyMsg, Handlers[i].code, MatchedText(e))
    ensures (forall i :: 0 <= i < |Handlers| ==> !Contains(MatchedText(e), Handlers[i].pattern)) ==>
              d == FormattedError(e)
  {
    var text := MatchedText(e);
    match FirstMatch(Handlers, text)
    case Some(i) => BuildErrorDict(text, Handlers[i].code, Handlers[i].friendlyMsg)
    case None => FormattedError(e)
  }

  /** `format_all`: one entry per error, in order. */
  function FormatAll(errors: seq<GraphQLError>): (ds: seq<ErrorDict>)
    ensures |ds| == |errors|
    ensures forall i :: 0 <= i < |errors| ==> ds[i] == Format(errors[i])
  {
    if errors == [] then [] else [Format(errors[0])] + FormatAll(errors[1..])
  }

  /** How an application error raised by a resolver reaches the formatter: wrapped as the
      original error, with its message and extensions copied into the formatted form. */
  function AsGraphQLError(e: AppError): GraphQLError {
    GraphQLError(Some(e.message), Formatted(Some(e.message), Some(e.extensions)))
  }

  /** An application error whose message matches no pattern keeps its message and reports its
      code, which is the class name unless the raiser supplied another. */
  lemma UnmatchedAppErrorKeepsCode(cls: ErrorClass, message: string, extensions: Option<Extensions>)
    requires forall i :: 0 <= i < |Handlers| ==> !Contains(message, Handlers[i].pattern)
    ensures var e := MakeAppError(cls, message, extensions);
      && Format(AsGraphQLError(e)) == ErrorDict(message, e.extensions["code"], message)
      && ((extensions.None? || "code" !in extensions.value) ==> Format(AsGraphQLError(e)).code == ClassName(cls))
  {
  }

  /** The order decides: a text holding the third pattern but neither of the first two is
      reported with the third handler's code, whether or not the later patterns occur too. */
  lemma EarlierHandlerWins(text: string)
    requires Contains(text, "validation error")
    requires !Contains(text, "Cannot query field") && !Contains(text, "cannot represent a")
    ensures Format(GraphQLError(Some(text), Formatted(None, None)))
      == ErrorDict(ArcaneCouncilMessage, InvalidArgumentValue, text)
  {
    assert Contains(text, Handlers[2].pattern);
    assert forall j :: 0 <= j < 2 ==> !Contains(text, Handlers[j].pattern);
  }

  /** The message of the next lemma: both patterns occur, no 'C' or 'c' does. */
  lemma ValidationTextPieces(a: string, b: string, c: string)
    requires a == "validation error" && b == ": " && c == "not defined"
    ensures Contains(a + b + c, "validation error") && Contains(a + b + c, "not defined")
    ensures 'C' !in a + b + c && 'c' !in a + b + c
  {
    OuterPiecesContained(a, b, c);
    assert 'C' !in a && 'C' !in b && 'C' !in c;
    assert 'c' !in a && 'c' !in b && 'c' !in c;
  }

  /** "validation error: not defined" holds the third and the fifth pattern; the third wins. */
  lemma ValidationBeforeNotDefined()
    ensures var text := "validation error" + ": " + "not defined";
      && Contains(text, "not defined")
      && Format(GraphQLError(Some(text), Formatted(None, None)))
           == ErrorDict(ArcaneCouncilMessage, InvalidArgumentValue, text)
  {
    var text := "validation error" + ": " + "not defined";
    ValidationTextPieces("validation error", ": ", "not defined");
    AbsentCharNotContained(text, "Cannot query field", 0);
    AbsentCharNotContained(text, "cannot represent a", 0);
    EarlierHandlerWins(text);
  }

  /** With neither an original error nor a formatted message, the defaults apply. */
  lemma EmptyErrorDefaults()
    ensures Format(GraphQLError(None, Formatted(None, None))) == ErrorDict("Unknown error.", UnknownError, "Unknown error.")
  {
    forall i | 0 <= i < |Handlers|
      ensures !Contains("", Handlers[i].pattern)
    {
      LongerNeverContained("", Handlers[i].pattern);
    }
  }
}
