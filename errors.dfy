/** Application errors: a safe client message, a code and an HTTP status,
    with the underlying Go error kept only for the internal log. */
module AppErrors {
  import opened Wrappers

  const CodeValidation := "VALIDATION_ERROR"
  const CodeAuth := "AUTH_ERROR"
  const CodeNotFound := "NOT_FOUND"
  const CodeUnauthorized := "UNAUTHORIZED"
  const CodeForbidden := "FORBIDDEN"
  const CodeInternal := "INTERNAL_ERROR"
  const CodeBadRequest := "BAD_REQUEST"
  const CodeConflict := "CONFLICT"
  const CodeRateLimit := "RATE_LIMIT"

  const AuthFailedMessage := "Authorization failed"
  const AuthRequiredMessage := "Authorization required"
  const ForbiddenMessage := "Access forbidden"
  const InternalMessage := "An internal error occurred. Please try again later."
  const RateLimitMessage := "Too many requests. Please try again later."

  /** A Go `error` value, as far as this code distinguishes them. */
  datatype GoError =
    | Plain(text: string)                   // errors.New, fmt.Errorf without %w
    | Fiber(status: int, text: string)      // *fiber.Error
    | App(app: AppError)                    // *AppError
    | Wrapped(text: string, cause: GoError) // fmt.Errorf("...: %w", cause)

  datatype AppError = AppError(code: string, message: string, statusCode: int, internal: Option<GoError>)
  {
    /** AppError.Error: the safe message; the internal error is never shown. */
    function Error(): string {
      message
    }
  }

  /** err.Error() for any error value. */
  function Text(e: GoError): string {
    match e
    case Plain(t) => t
    case Fiber(_, t) => t
    case App(a) => a.Error()
    case Wrapped(t, _) => t
  }

  /** errors.As(err, &appErr): the first *AppError along the Unwrap chain.
      AppError has no Unwrap method, so the search stops at it. */
  function AsApp(e: GoError): Option<AppError> {
    match e
    case App(a) => Some(a)
    case Wrapped(_, c) => AsApp(c)
    case _ => None
  }

  /** The status every code is paired with by its constructor. */
  function StatusOf(code: string): (s: Option<int>) {
    if code == CodeValidation then Some(400)
    else if code == CodeAuth then Some(401)
    else if code == CodeNotFound then Some(404)
    else if code == CodeUnauthorized then Some(401)
    else if code == CodeForbidden then Some(403)
    else if code == CodeInternal then Some(500)
    else if code == CodeBadRequest then Some(400)
    else if code == CodeConflict then Some(409)
    else if code == CodeRateLimit then Some(429)
    else None
  }

  /** An error whose code and status agree with the taxonomy. */
  predicate WellFormed(e: AppError) {
    StatusOf(e.code) == Some(e.statusCode)
  }

  function NewAppError(code: string, message: string, statusCode: int, internal: Option<GoError>): (e: AppError)
    ensures e.Error() == message
    ensures StatusOf(code) == Some(statusCode) ==> WellFormed(e)
  {
    AppError(code, message, statusCode, internal)
  }

  function ValidationError(message: string, internal: Option<GoError>): (e: AppError)
    ensures WellFormed(e) && e.statusCode == 400 && e.Error() == message && e.internal == internal
  {
    NewAppError(CodeValidation, message, 400, internal)
  }

  function AuthError(message: string, internal: Option<GoError>): (e: AppError)
    ensures WellFormed(e) && e.statusCode == 401 && e.Error() == AuthFailedMessage && e.internal == internal
  {
    NewAppError(CodeAuth, AuthFailedMessage, 401, internal)
  }

  function NotFoundError(message: string): (e: AppError)
    ensures WellFormed(e) && e.statusCode == 404 && e.Error() == message && e.internal.None?
  {
    NewAppError(CodeNotFound, message, 404, None)
  }

  function UnauthorizedError(message: string): (e: AppError)
    ensures WellFormed(e) && e.statusCode == 401 && e.Error() == AuthRequiredMessage && e.internal.None?
  {
    NewAppError(CodeUnauthorized, AuthRequiredMessage, 401, None)
  }

  function ForbiddenError(message: string): (e: AppError)
    ensures WellFormed(e) && e.statusCode == 403 && e.Error() == ForbiddenMessage && e.internal.None?
  {
    NewAppError(CodeForbidden, ForbiddenMessage, 403, None)
  }

  function InternalError(internal: Option<GoError>): (e: AppError)
    ensures WellFormed(e) && e.statusCode == 500 && e.Error() == InternalMessage && e.internal == internal
  {
    NewAppError(CodeInternal, InternalMessage, 500, internal)
  }

  function BadRequestError(message: string): (e: AppError)
    ensures WellFormed(e) && e.statusCode == 400 && e.Error() == message && e.internal.None?
  {
    NewAppError(CodeBadRequest, message, 400, None)
  }

  function ConflictError(message: string): (e: AppError)
    ensures WellFormed(e) && e.statusCode == 409 && e.Error() == message && e.internal.None?
  {
    NewAppError(CodeConflict, message, 409, None)
  }

  function RateLimitError(): (e: AppError)
    ensures WellFormed(e) && e.statusCode == 429 && e.Error() == RateLimitMessage && e.internal.None?
  {
    NewAppError(CodeRateLimit, RateLimitMessage, 429, None)
  }

  /** The safe message never depends on the internal error. */
  lemma ErrorHidesInternal(e: AppError, other: Option<GoError>)
    ensures e.(internal := other).Error() == e.Error() == e.message
  {
  }

  /** The constructors with a fixed message ignore the one they are given. */
  lemma FixedMessagesIgnoreArgument(m1: string, m2: string, i: Option<GoError>)
    ensures AuthError(m1, i) == AuthError(m2, i)
    ensures UnauthorizedError(m1) == UnauthorizedError(m2)
    ensures ForbiddenError(m1) == ForbiddenError(m2)
  {
  }

  predicate IsAppError(e: GoError) {
    AsApp(e).Some?
  }

  function GetAppError(e: GoError): (r: Option<AppError>)
    ensures r.Some? <==> IsAppError(e)
  {
    AsApp(e)
  }

  /** Every *AppError found in the error's chain is well formed. */
  predicate ChainWellFormed(e: GoError) {
    AsApp(e).Some? ==> WellFormed(AsApp(e).value)
  }

  /** WrapError: nil stays nil, an AppError in the chain is returned as it is,
      anything else becomes the generic internal error carrying it. */
  function WrapError(err: Option<GoError>): (r: Option<AppError>)
    ensures r.None? <==> err.None?
    ensures err.Some? && IsAppError(err.value) ==> r == GetAppError(err.value)
    ensures err.Some? && !IsAppError(err.value) ==>
      r.value.code == CodeInternal && r.value.Error() == InternalMessage && r.value.internal == err
    ensures err.Some? && ChainWellFormed(err.value) ==> WellFormed(r.value)
  {
    match err
    case None => None
    case Some(e) =>
      match AsApp(e)
      case Some(a) => Some(a)
      case None => Some(InternalError(err))
  }

  /** Wrapping what WrapError returned gives it back unchanged. */
  lemma WrapErrorIdempotent(err: Option<GoError>)
    requires err.Some?
    ensures WrapError(Some(App(WrapError(err).value))) == WrapError(err)
  {
  }

  /** errors.As looks through any number of %w wrappings. */
  lemma {:induction false} AsAppThroughWraps(e: GoError, texts: seq<string>)
    ensures AsApp(WrapAll(texts, e)) == AsApp(e)
  {
    if texts != [] {
      AsAppThroughWraps(e, texts[1..]);
    }
  }

  /** `e` wrapped once per message, the first message outermost. */
  function WrapAll(texts: seq<string>, e: GoError): GoError {
    if texts == [] then e else Wrapped(texts[0], WrapAll(texts[1..], e))
  }
}
