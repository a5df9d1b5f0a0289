/** Security middleware: the sensitive-endpoint classifier, the
    suspicious-input detector, the request validator, the safe error
    handler and the access-denied rule of the security logger. */
module Security {
  import opened Wrappers
  import opened Strs
  import opened AppErrors
  import opened Logger

  // ---------------------------------------------------------------------
  // isSensitiveEndpoint
  // ---------------------------------------------------------------------

  const SensitivePrefixes: seq<string> :=
    ["/api/auth/", "/api/user/", "/api/admin/", "/api/profile", "/api/upload", "/api/playlists"]

  function AnyPrefix(s: string, prefixes: seq<string>): (b: bool)
    ensures b <==> exists i :: 0 <= i < |prefixes| && HasPrefix(s, prefixes[i])
  {
    if prefixes == [] then false else HasPrefix(s, prefixes[0]) || AnyPrefix(s, prefixes[1..])
  }

  function IsSensitiveEndpoint(path: string): (b: bool)
    ensures b <==>
      || HasPrefix(path, "/api/auth/") || HasPrefix(path, "/api/user/") || HasPrefix(path, "/api/admin/")
      || HasPrefix(path, "/api/profile") || HasPrefix(path, "/api/upload") || HasPrefix(path, "/api/playlists")
  {
    var ps := SensitivePrefixes;
    assert ps[0] == "/api/auth/" && ps[1] == "/api/user/" && ps[2] == "/api/admin/";
    assert ps[3] == "/api/profile" && ps[4] == "/api/upload" && ps[5] == "/api/playlists";
    AnyPrefix(path, SensitivePrefixes)
  }

  /** Everything below a sensitive prefix is sensitive. */
  lemma SensitiveBelowPrefix(i: nat, rest: string)
    requires i < |SensitivePrefixes|
    ensures IsSensitiveEndpoint(SensitivePrefixes[i] + rest)
  {
    assert (SensitivePrefixes[i] + rest)[..|SensitivePrefixes[i]|] == SensitivePrefixes[i];
  }

  // ---------------------------------------------------------------------
  // containsSuspiciousPattern
  // ---------------------------------------------------------------------

  const SuspiciousPatterns: seq<string> :=
    ["<script", "javascript:", "onerror=", "onclick=", "../", "..\\", "DROP TABLE",
     "DELETE FROM", "INSERT INTO", "UPDATE ", "UNION SELECT", "'; --", "OR 1=1"]

  /** The loop over the patterns, each lowered before the test. */
  function AnyLoweredIn(s: string, patterns: seq<string>): (b: bool)
    ensures b <==> exists i :: 0 <= i < |patterns| && Contains(s, Lower(patterns[i]))
  {
    if patterns == [] then false
    else Contains(s, Lower(patterns[0])) || AnyLoweredIn(s, patterns[1..])
  }

  /** Case-insensitive: both the input and each pattern are lowered. */
  function ContainsSuspiciousPattern(input: string): (b: bool)
    ensures b <==> exists i :: 0 <= i < |SuspiciousPatterns| && Contains(Lower(input), Lower(SuspiciousPatterns[i]))
  {
    AnyLoweredIn(Lower(input), SuspiciousPatterns)
  }

  /** A pattern written in any letter case, anywhere in the input, is caught. */
  lemma SuspiciousInAnyCase(before: string, variant: string, after: string, i: nat)
    requires i < |SuspiciousPatterns| && Lower(variant) == Lower(SuspiciousPatterns[i])
    ensures ContainsSuspiciousPattern(before + variant + after)
  {
    VariantContained(before, variant, after, SuspiciousPatterns[i]);
  }

  // ---------------------------------------------------------------------
  // RequestValidator
  // ---------------------------------------------------------------------

  const MaxQueryValueBytes: nat := 1000
  const MaxBodyBytes: nat := 50 * 1024 * 1024

  datatype Verdict = Pass | Block(status: int, message: string)

  /** The two checks on one query value, made after CR and LF are removed:
      patterns first, then length in bytes. */
  function CheckQueryValue(value: string): (v: Verdict)
    ensures v.Pass? <==>
      !ContainsSuspiciousPattern(RemoveCarriageReturns(value)) && Utf8Len(RemoveCarriageReturns(value)) <= MaxQueryValueBytes
    ensures ContainsSuspiciousPattern(RemoveCarriageReturns(value)) ==> v == Block(400, "Invalid input detected")
    ensures !ContainsSuspiciousPattern(RemoveCarriageReturns(value)) && Utf8Len(RemoveCarriageReturns(value)) > MaxQueryValueBytes
            ==> v == Block(400, "Input exceeds maximum length")
  {
    var clean := RemoveCarriageReturns(value);
    if ContainsSuspiciousPattern(clean) then Block(400, "Invalid input detected")
    else if Utf8Len(clean) > MaxQueryValueBytes then Block(400, "Input exceeds maximum length")
    else Pass
  }

  /** CR and LF cannot hide a pattern: a value is judged as its cleaned form. */
  lemma CheckQueryValueIgnoresLineBreaks(value: string)
    ensures CheckQueryValue(value) == CheckQueryValue(RemoveCarriageReturns(value))
  {
    RemoveCarriageReturnsIdempotent(value);
  }

  /** The query loop, over the verdicts of the values in the map's
      iteration order: the position of the first value that is blocked. */
  function FirstRejected(verdicts: seq<Verdict>, from: nat): (r: Option<nat>)
    requires from <= |verdicts|
    ensures r.None? <==> forall i :: from <= i < |verdicts| ==> verdicts[i].Pass?
    ensures r.Some? ==>
      && from <= r.value < |verdicts| && verdicts[r.value].Block?
      && (forall j :: from <= j < r.value ==> verdicts[j].Pass?)
    decreases |verdicts| - from
  {
    if from == |verdicts| then None
    else if verdicts[from].Block? then Some(from)
    else FirstRejected(verdicts, from + 1)
  }

  /** Each query value's verdict, in iteration order. */
  function QueryVerdicts(values: seq<string>): (vs: seq<Verdict>)
    ensures |vs| == |values| && forall i :: 0 <= i < |values| ==> vs[i] == CheckQueryValue(values[i])
  {
    seq(|values|, i requires 0 <= i < |values| => CheckQueryValue(values[i]))
  }

  /** RequestValidator: every query value is checked before the body size,
      and the size limit does not apply to paths containing "/upload". */
  function RequestValidator(values: seq<string>, bodyBytes: nat, path: string): (v: Verdict)
    ensures v.Pass? <==>
      && (forall i :: 0 <= i < |values| ==> CheckQueryValue(values[i]).Pass?)
      && (bodyBytes <= MaxBodyBytes || Contains(path, "/upload"))
    ensures FirstRejected(QueryVerdicts(values), 0).Some? ==>
      v == CheckQueryValue(values[FirstRejected(QueryVerdicts(values), 0).value])
    ensures FirstRejected(QueryVerdicts(values), 0).None? && bodyBytes > MaxBodyBytes && !Contains(path, "/upload") ==>
      v == Block(413, "Request body too large")
  {
    var verdicts := QueryVerdicts(values);
    match FirstRejected(verdicts, 0)
    case Some(i) => verdicts[i]
    case None =>
      if bodyBytes > MaxBodyBytes && !Contains(path, "/upload") then Block(413, "Request body too large")
      else Pass
  }

  // ---------------------------------------------------------------------
  // ErrorHandler
  // ---------------------------------------------------------------------

  /** The JSON body {"error": true, "code": ..., "message": ...} and its status. */
  datatype ErrorReply = ErrorReply(status: int, code: string, message: string)

  const GenericErrorMessage := "An internal error occurred"

  /** The message and code for a *fiber.Error status. */
  function FiberReply(status: int): (r: ErrorReply)
    ensures r.status == status
  {
    if status == 400 then ErrorReply(400, CodeBadRequest, "Invalid request")
    else if status == 401 then ErrorReply(401, CodeUnauthorized, "Authentication required")
    else if status == 403 then ErrorReply(403, CodeForbidden, "Access forbidden")
    else if status == 404 then ErrorReply(404, CodeNotFound, "Resource not found")
    else if status == 409 then ErrorReply(409, CodeConflict, "Resource conflict")
    else if status == 429 then ErrorReply(429, CodeRateLimit, "Too many requests")
    else ErrorReply(status, CodeInternal, "An error occurred")
  }

  /** The only messages the handler ever sends. */
  predicate SafeMessage(m: string) {
    m in ["Invalid request", "Authentication required", "Access forbidden", "Resource not found",
          "Resource conflict", "Too many requests", "An error occurred", GenericErrorMessage]
  }

  /** ErrorHandler: only a *fiber.Error itself (no unwrapping) chooses the
      status; an AppError, wrapped or not, is a 500 like any other error. */
  function ErrorHandler(err: GoError): (r: ErrorReply)
    ensures err.Fiber? ==> r.status == err.status
    ensures !err.Fiber? ==> r == ErrorReply(500, CodeInternal, GenericErrorMessage)
    ensures SafeMessage(r.message)
  {
    match err
    case Fiber(status, _) => FiberReply(status)
    case _ => ErrorReply(500, CodeInternal, GenericErrorMessage)
  }

  /** The reply never depends on the error's text, only on its status. */
  lemma ErrorHandlerIgnoresText(status: int, t1: string, t2: string, other: GoError)
    ensures ErrorHandler(Fiber(status, t1)) == ErrorHandler(Fiber(status, t2))
    ensures !other.Fiber? ==> ErrorHandler(other) == ErrorHandler(Plain(t1))
  {
  }

  /** The statuses with their own code; any other keeps INTERNAL_ERROR. */
  lemma ErrorHandlerCodes(status: int)
    ensures status !in {400, 401, 403, 404, 409, 429} ==>
      ErrorHandler(Fiber(status, "")) == ErrorReply(status, CodeInternal, "An error occurred")
    ensures status in {400, 401, 403, 404, 409, 429} ==>
      ErrorHandler(Fiber(status, "")).code != CodeInternal
  {
  }

  // ---------------------------------------------------------------------
  // SecurityLogger
  // ---------------------------------------------------------------------

  /** The reason the security logger records for a final status, if any. */
  function DenialReason(status: int): (r: Option<string>)
    ensures r.Some? <==> status == 401 || status == 403
    ensures status == 401 ==> r == Some("Authentication required")
    ensures status == 403 ==> r == Some("Insufficient permissions")
  {
    if status == 401 then Some("Authentication required")
    else if status == 403 then Some("Insufficient permissions")
    else None
  }

  /** What SecurityLogger does around the next handler: the error it
      returns, and the events and error line it writes. */
  datatype Logged = Logged(
    err: Option<GoError>,
    dataAccess: Option<SecurityEvent>,
    errorLine: Option<string>,
    accessDenied: Option<SecurityEvent>)

  /** SecurityLogger. `status` is the response status when the downstream
      handler returns and `downstream` the error it returned. */
  function SecurityLogger(username: Option<string>, ip: string, verb: string, path: string,
                          status: int, downstream: Option<GoError>, sha256: string -> Digest): (r: Logged)
    ensures r.err == downstream
    ensures r.dataAccess.Some? <==> IsSensitiveEndpoint(path)
    ensures r.errorLine.Some? <==> downstream.Some?
    ensures r.accessDenied.Some? <==> status == 401 || status == 403
    ensures r.accessDenied.Some? ==>
      r.accessDenied.value == AccessDenied(if username.Some? then username.value else Anonymous,
                                           ip, path, DenialReason(status).value, sha256)
    ensures r.dataAccess.Some? ==>
      r.dataAccess.value == DataAccess(if username.Some? then username.value else Anonymous,
                                       ip, verb + " " + path, sha256)
    ensures r.errorLine.Some? ==> r.errorLine.value == ErrorLine(CategoryAPI, "Request error occurred", downstream)
  {
    var user := if username.Some? then username.value else Anonymous;
    var access := if IsSensitiveEndpoint(path) then Some(DataAccess(user, ip, verb + " " + path, sha256)) else None;
    var line := if downstream.Some? then Some(ErrorLine(CategoryAPI, "Request error occurred", downstream)) else None;
    var denied := match DenialReason(status)
      case None => None
      case Some(reason) => Some(AccessDenied(user, ip, path, reason, sha256));
    Logged(downstream, access, line, denied)
  }
}
