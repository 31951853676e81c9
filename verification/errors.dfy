/** The application's error taxonomy: the `AppError` class family with its fixed
    status/code pairs, the classification of upstream speech-API errors, the
    choice of log severity, and the JSON error body with its production redaction. */
module Errors {
  import opened Wrappers
  import Strings

  /** The free-form `details` payload an error may carry. */
  datatype Json = JUndefined | JString(s: string) | JNumber(n: real) | JList(items: seq<Json>)

  datatype Field = Field(key: string, value: Json)

  /** The class that constructed an error (its `name`). */
  datatype ErrorClass =
    | AppErrorClass
    | ValidationErrorClass
    | AuthenticationErrorClass
    | AuthorizationErrorClass
    | NotFoundErrorClass
    | RateLimitErrorClass
    | ExternalApiErrorClass

  datatype AppError = AppError(
    kind: ErrorClass,
    message: string,
    statusCode: int,
    code: Option<string>,
    details: Option<seq<Field>>)

  /** Anything a route may catch: an `AppError` or some other `Error`. */
  datatype Thrown = App(error: AppError) | Plain(message: string)

  /** The status every subclass assigns; the base class defaults to 500. */
  function ClassStatus(c: ErrorClass): int {
    match c
    case AppErrorClass => 500
    case ValidationErrorClass => 400
    case AuthenticationErrorClass => 401
    case AuthorizationErrorClass => 403
    case NotFoundErrorClass => 404
    case RateLimitErrorClass => 429
    case ExternalApiErrorClass => 502
  }

  /** The code every subclass assigns; the base class has none unless given one. */
  function ClassCode(c: ErrorClass): Option<string> {
    match c
    case AppErrorClass => None
    case ValidationErrorClass => Some("VALIDATION_ERROR")
    case AuthenticationErrorClass => Some("AUTHENTICATION_ERROR")
    case AuthorizationErrorClass => Some("AUTHORIZATION_ERROR")
    case NotFoundErrorClass => Some("NOT_FOUND")
    case RateLimitErrorClass => Some("RATE_LIMIT_ERROR")
    case ExternalApiErrorClass => Some("EXTERNAL_API_ERROR")
  }

  /** An error whose status and code are the ones its class fixes. */
  predicate Conforms(e: AppError) {
    e.kind != AppErrorClass ==> e.statusCode == ClassStatus(e.kind) && e.code == ClassCode(e.kind)
  }

  /** `new AppError(message, statusCode = 500, code?, details?)`. */
  function NewAppError(message: string, statusCode: Option<int>, code: Option<string>, details: Option<seq<Field>>): (r: AppError)
    ensures r.kind == AppErrorClass && r.message == message
    ensures statusCode.None? ==> r.statusCode == ClassStatus(AppErrorClass)
    ensures statusCode.Some? ==> r.statusCode == statusCode.value
  {
    AppError(AppErrorClass, message, statusCode.GetOr(500), code, details)
  }

  function NewValidationError(message: string, details: Option<seq<Field>>): (r: AppError)
    ensures Conforms(r) && r.kind == ValidationErrorClass
    ensures r.message == message && r.details == details
  {
    AppError(ValidationErrorClass, message, 400, Some("VALIDATION_ERROR"), details)
  }

  function NewAuthenticationError(message: Option<string>): (r: AppError)
    ensures Conforms(r) && r.kind == AuthenticationErrorClass
    ensures r.message == message.GetOr("Authentication required")
  {
    AppError(AuthenticationErrorClass, message.GetOr("Authentication required"), 401, Some("AUTHENTICATION_ERROR"), None)
  }

  function NewAuthorizationError(message: Option<string>): (r: AppError)
    ensures Conforms(r) && r.kind == AuthorizationErrorClass
    ensures r.message == message.GetOr("Insufficient permissions")
  {
    AppError(AuthorizationErrorClass, message.GetOr("Insufficient permissions"), 403, Some("AUTHORIZATION_ERROR"), None)
  }

  /** The message names the missing resource. */
  function NewNotFoundError(resource: string): (r: AppError)
    ensures Conforms(r) && r.kind == NotFoundErrorClass
    ensures Strings.StartsWith(r.message, resource)
    ensures r.message[|resource|..] == " not found"
  {
    AppError(NotFoundErrorClass, resource + " not found", 404, Some("NOT_FOUND"), None)
  }

  function NewRateLimitError(message: Option<string>): (r: AppError)
    ensures Conforms(r) && r.kind == RateLimitErrorClass
    ensures r.message == message.GetOr("Too many requests")
  {
    AppError(RateLimitErrorClass, message.GetOr("Too many requests"), 429, Some("RATE_LIMIT_ERROR"), None)
  }

  const EXTERNAL_PREFIX := "External API error from "

  /** `External API error from <service>: <message>`. */
  function ExternalMessage(service: string, message: string): (m: string)
    ensures Strings.StartsWith(m, EXTERNAL_PREFIX)
    ensures m[|EXTERNAL_PREFIX|..] == service + ": " + message
  {
    var m := EXTERNAL_PREFIX + service + ": " + message;
    assert m[..|EXTERNAL_PREFIX|] == EXTERNAL_PREFIX;
    m
  }

  /** The message names the service and embeds the caller's message; the details
      hold only the service and the original error's message. */
  function NewExternalApiError(service: string, message: string, originalMessage: Option<string>): (r: AppError)
    ensures Conforms(r) && r.kind == ExternalApiErrorClass
    ensures r.message == ExternalMessage(service, message)
    ensures r.details.Some? && |r.details.value| == 2
    ensures r.details.value[0] == Field("service", JString(service))
    ensures r.details.value[1].key == "originalError"
    ensures r.details.value[1].value == (if originalMessage.Some? then JString(originalMessage.value) else JUndefined)
  {
    var original := match originalMessage case Some(m) => JString(m) case None => JUndefined;
    AppError(ExternalApiErrorClass, ExternalMessage(service, message), 502, Some("EXTERNAL_API_ERROR"),
             Some([Field("service", JString(service)), Field("originalError", original)]))
  }

  /** What the speech client throws: possibly nothing at all, else an HTTP status
      and a message, each possibly absent. */
  datatype UpstreamError = UpstreamError(status: Option<int>, message: Option<string>)

  predicate Signals(e: Option<UpstreamError>, status: int, phrase: string) {
    e.Some? && (e.value.status == Some(status) || (e.value.message.Some? && Strings.Contains(e.value.message.value, phrase)))
  }

  predicate BadKey(e: Option<UpstreamError>) { Signals(e, 401, "API key") }
  predicate RateLimited(e: Option<UpstreamError>) { Signals(e, 429, "rate limit") }
  predicate OutOfQuota(e: Option<UpstreamError>) { Signals(e, 402, "quota") }
  predicate Overloaded(e: Option<UpstreamError>) { Signals(e, 503, "overloaded") }

  function UpstreamMessage(e: Option<UpstreamError>): Option<string> {
    if e.Some? then e.value.message else None
  }

  const MSG_BAD_KEY := "Invalid API key. Please check your OPENAI_API_KEY configuration."
  const MSG_RATE := "OpenAI rate limit exceeded. Please try again later."
  const MSG_QUOTA := "Insufficient quota. Please check your OpenAI billing settings."
  const MSG_OVERLOADED := "Service temporarily unavailable. Please try again in a moment."
  const MSG_GENERIC := "An error occurred while processing your request"

  /** `handleOpenAIError`: the first matching rule decides. A bad key wins over a
      rate limit, which wins over quota and overload; everything else is a generic
      external error carrying the upstream message (or a fixed one if it is empty). */
  function HandleOpenAIError(e: Option<UpstreamError>): (r: AppError)
    ensures Conforms(r)
    ensures r.kind == RateLimitErrorClass <==> !BadKey(e) && RateLimited(e)
    ensures r.kind != RateLimitErrorClass ==> r.kind == ExternalApiErrorClass
    ensures BadKey(e) ==> r.message == ExternalMessage("OpenAI", MSG_BAD_KEY)
    ensures !BadKey(e) && RateLimited(e) ==> r.message == MSG_RATE
    ensures !BadKey(e) && !RateLimited(e) && OutOfQuota(e) ==> r.message == ExternalMessage("OpenAI", MSG_QUOTA)
    ensures !BadKey(e) && !RateLimited(e) && !OutOfQuota(e) && Overloaded(e) ==>
              r.message == ExternalMessage("OpenAI", MSG_OVERLOADED)
    ensures !BadKey(e) && !RateLimited(e) && !OutOfQuota(e) && !Overloaded(e) ==>
              r.message == ExternalMessage("OpenAI", if Truthy(UpstreamMessage(e)) then UpstreamMessage(e).value else MSG_GENERIC)
    ensures r.kind == ExternalApiErrorClass ==>
              r.details == Some([Field("service", JString("OpenAI")),
                                 Field("originalError", if UpstreamMessage(e).Some? then JString(UpstreamMessage(e).value) else JUndefined)])
  {
    if BadKey(e) then NewExternalApiError("OpenAI", MSG_BAD_KEY, UpstreamMessage(e))
    else if RateLimited(e) then NewRateLimitError(Some(MSG_RATE))
    else if OutOfQuota(e) then NewExternalApiError("OpenAI", MSG_QUOTA, UpstreamMessage(e))
    else if Overloaded(e) then NewExternalApiError("OpenAI", MSG_OVERLOADED, UpstreamMessage(e))
    else
      var m := UpstreamMessage(e);
      NewExternalApiError("OpenAI", if Truthy(m) then m.value else MSG_GENERIC, m)
  }

  /** Every upstream failure surfaces as a 429 or a 502. */
  lemma UpstreamStatus(e: Option<UpstreamError>)
    ensures HandleOpenAIError(e).statusCode in {429, 502}
  {
  }

  /** The rules are checked in order: a 429 whose message mentions the API key is
      reported as a key problem, not as rate limiting. */
  lemma BadKeyBeatsRateLimit()
    ensures HandleOpenAIError(Some(UpstreamError(Some(429), Some("API key")))).kind == ExternalApiErrorClass
  {
    Strings.ContainsAt("API key", "API key", 0);
  }

  datatype Severity = Warning | Failure

  /** `logError`: client errors (an `AppError` with a 4xx status) are warnings,
      everything else is logged as an error. */
  function LogSeverity(t: Thrown): (r: Severity)
    ensures r == Warning <==> t.App? && 400 <= t.error.statusCode < 500
  {
    match t
    case App(e) => if e.statusCode >= 400 && e.statusCode < 500 then Warning else Failure
    case Plain(_) => Failure
  }

  /** Which classes are client errors follows from the status table alone. */
  lemma SeverityOfClasses(e: AppError)
    requires Conforms(e) && e.kind != AppErrorClass
    ensures LogSeverity(App(e)) == Warning <==> e.kind != ExternalApiErrorClass
  {
  }

  predicate IsProduction(nodeEnv: Option<string>) {
    nodeEnv == Some("production")
  }

  /** Outside production the body also carries the error's `details` (for an
      `AppError`) and its stack trace. */
  datatype DebugInfo = DebugInfo(details: Option<seq<Field>>)

  datatype ErrorResponse = ErrorResponse(error: string, code: Option<string>, statusCode: int, debug: Option<DebugInfo>)

  const MSG_UNEXPECTED := "An unexpected error occurred"

  /** `formatErrorResponse`. */
  function FormatErrorResponse(t: Thrown, nodeEnv: Option<string>): (r: ErrorResponse)
    ensures IsProduction(nodeEnv) <==> r.debug.None?
    ensures t.App? ==> r.error == t.error.message && r.code == t.error.code && r.statusCode == t.error.statusCode
    ensures t.App? && !IsProduction(nodeEnv) ==> r.debug == Some(DebugInfo(t.error.details))
    ensures t.Plain? ==> r.code == Some("INTERNAL_ERROR") && r.statusCode == 500
    ensures t.Plain? ==> r.error == (if IsProduction(nodeEnv) then MSG_UNEXPECTED else t.message)
    ensures t.Plain? && !IsProduction(nodeEnv) ==> r.debug == Some(DebugInfo(None))
  {
    var debug := if IsProduction(nodeEnv) then None else Some(DebugInfo(if t.App? then t.error.details else None));
    match t
    case App(e) => ErrorResponse(e.message, e.code, e.statusCode, debug)
    case Plain(m) => ErrorResponse(if IsProduction(nodeEnv) then MSG_UNEXPECTED else m, Some("INTERNAL_ERROR"), 500, debug)
  }

  /** In production an unexpected error's body reveals nothing about it. */
  lemma ProductionHidesUnexpected(m1: string, m2: string)
    ensures FormatErrorResponse(Plain(m1), Some("production")) == FormatErrorResponse(Plain(m2), Some("production"))
  {
  }
}
