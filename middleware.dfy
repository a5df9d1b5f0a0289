/** The request-boundary gates: the Bearer-token gate that fills the request
    context from the session claims, the admin gate, and the context
    accessors. Each gate continues to the next handler or answers at once. */
module Middleware {
  import opened Wrappers
  import opened Strs
  import opened Crypto
  import opened Auth
  import opened Logger

  const MsgAuthRequired := "Authentication required"
  const MsgNoUserId := "User ID not found in context"
  const MsgBadFormat := "Invalid authorization format"
  const MsgBadToken := "Invalid or expired token"
  const MsgBadClaims := "Invalid token"
  const MsgAdminRequired := "Admin access required"
  const MsgNoUsername := "username not found in context"

  /** The three c.Locals entries; None is an entry never set. */
  datatype Locals = Locals(userId: Option<int>, username: Option<string>, isAdmin: Option<bool>)

  /** A gate either answers with a status and message or calls c.Next(). */
  datatype Gate = Reject(status: int, message: string) | Continue(locals: Locals)

  /** strings.Split(header, " ") must give exactly "Bearer" and one more part. */
  function BearerToken(header: string): (r: Option<string>)
    ensures r.Some? ==> header == "Bearer " + r.value && ' ' !in r.value
  {
    var parts := Split(header, ' ');
    if |parts| == 2 && parts[0] == "Bearer" then
      JoinSplit(header, ' ');
      SplitPiecesFree(header, ' ');
      assert parts[1..] == [parts[1]];
      Some(parts[1])
    else None
  }

  /** Every "Bearer " header whose token holds no space is accepted. */
  lemma BearerAccepts(token: string)
    requires ' ' !in token
    ensures BearerToken("Bearer " + token) == Some(token)
  {
    assert "Bearer " + token == "Bearer" + [' '] + token;
    SplitConcat("Bearer", token, ' ');
    SplitNoSep(token, ' ');
  }

  /** The claims reading of a JSON value: the string, or "" (`v, _ := x.(string)`). */
  function StringClaim(claims: Claims, key: string): string {
    if key in claims && claims[key].JStr? then claims[key].s else ""
  }

  function BoolClaim(claims: Claims, key: string): bool {
    key in claims && claims[key].JBool? && claims[key].b
  }

  /** AuthMiddleware. */
  function AuthMiddleware(header: string, jws: Jws, secret: string, now: int): (g: Gate)
    ensures header == "" ==> g == Reject(401, MsgAuthRequired)
    ensures g.Reject? ==> g.status == 401
    ensures header != "" && BearerToken(header).None? ==> g == Reject(401, MsgBadFormat)
    ensures BearerToken(header).Some? && ValidateToken(jws, secret, BearerToken(header).value, now).Err? ==>
      g == Reject(401, MsgBadToken)
    ensures BearerToken(header).Some? && ValidateToken(jws, secret, BearerToken(header).value, now).Ok? &&
            !("user_id" in ValidateToken(jws, secret, BearerToken(header).value, now).value &&
              ValidateToken(jws, secret, BearerToken(header).value, now).value["user_id"].JNum?) ==>
      g == Reject(401, MsgBadClaims)
    ensures g.Continue? <==>
      && BearerToken(header).Some? && ValidateToken(jws, secret, BearerToken(header).value, now).Ok?
      && "user_id" in ValidateToken(jws, secret, BearerToken(header).value, now).value
      && ValidateToken(jws, secret, BearerToken(header).value, now).value["user_id"].JNum?
    ensures g.Continue? ==>
      var claims := ValidateToken(jws, secret, BearerToken(header).value, now).value;
      && g.locals.userId == Some(Trunc(claims["user_id"].r))
      && g.locals.username == Some(StringClaim(claims, "username"))
      && g.locals.isAdmin == Some(BoolClaim(claims, "is_admin"))
  {
    if header == "" then Reject(401, MsgAuthRequired)
    else
      match BearerToken(header)
      case None => Reject(401, MsgBadFormat)
      case Some(token) =>
        match ValidateToken(jws, secret, token, now)
        case Err(_) => Reject(401, MsgBadToken)
        case Ok(claims) =>
          if !("user_id" in claims && claims["user_id"].JNum?) then Reject(401, MsgBadClaims)
          else
            Continue(Locals(Some(Trunc(claims["user_id"].r)), Some(StringClaim(claims, "username")),
                            Some(BoolClaim(claims, "is_admin"))))
  }

  /** A token issued at login passes the gate until it expires, and the
      context then holds exactly the logged-in user's id, name and flag. */
  lemma SessionPassesGate(jws: Jws, secret: string, user: User, iat: int, now: int)
    requires JwsSound(jws) && GenerateToken(jws, secret, user, iat).Ok?
    requires now <= iat + TokenTtl
    ensures AuthMiddleware("Bearer " + GenerateToken(jws, secret, user, iat).value, jws, secret, now)
            == Continue(Locals(Some(user.id), Some(user.username), Some(user.isAdmin)))
  {
    var token := GenerateToken(jws, secret, user, iat).value;
    BearerAccepts(token);
    TokenRoundTrip(jws, secret, user, iat, now);
    TruncWhole(user.id);
  }

  /** The reason AuthMiddleware logs beside each reply it sends; only the
      bad-claims reason differs from its reply's message. */
  function AuthDenialReason(message: string): (reason: string)
    ensures message == MsgAuthRequired ==> reason == "No authorization token provided"
    ensures message == MsgBadClaims ==> reason == "Invalid token claims"
    ensures message != MsgAuthRequired && message != MsgBadClaims ==> reason == message
  {
    if message == MsgAuthRequired then "No authorization token provided"
    else if message == MsgBadClaims then "Invalid token claims"
    else message
  }

  /** The record AuthMiddleware logs: an ACCESS_DENIED for "anonymous" with
      every rejection, nothing when it continues. */
  function AuthGateLog(header: string, jws: Jws, secret: string, now: int, ip: string, path: string,
                       sha256: string -> Digest): (ev: Option<SecurityEvent>)
    ensures ev.None? <==> AuthMiddleware(header, jws, secret, now).Continue?
    ensures header == "" ==> ev == Some(AccessDenied(Anonymous, ip, path, "No authorization token provided", sha256))
    ensures header != "" && BearerToken(header).None? ==>
      ev == Some(AccessDenied(Anonymous, ip, path, MsgBadFormat, sha256))
    ensures BearerToken(header).Some? && ValidateToken(jws, secret, BearerToken(header).value, now).Err? ==>
      ev == Some(AccessDenied(Anonymous, ip, path, MsgBadToken, sha256))
    ensures AuthMiddleware(header, jws, secret, now) == Reject(401, MsgBadClaims) ==>
      ev == Some(AccessDenied(Anonymous, ip, path, "Invalid token claims", sha256))
    ensures ev.Some? ==> ev.value.eventType == "ACCESS_DENIED" && ev.value.userHash == Anonymous
  {
    match AuthMiddleware(header, jws, secret, now)
    case Continue(_) => None
    case Reject(_, message) => Some(AccessDenied(Anonymous, ip, path, AuthDenialReason(message), sha256))
  }

  /** AdminMiddleware: only a present, true is_admin continues. */
  function AdminMiddleware(locals: Locals): (g: Gate)
    ensures g.Continue? <==> locals.isAdmin == Some(true)
    ensures g.Continue? ==> g.locals == locals
    ensures g.Reject? ==> g == Reject(403, MsgAdminRequired)
  {
    if locals.isAdmin != Some(true) then Reject(403, MsgAdminRequired) else Continue(locals)
  }

  /** The record AdminMiddleware logs: ACCESS_DENIED for the context's user
      name ("anonymous" without one) when it rejects; ADMIN_ACTION with the
      method and path when it continues and a user name is set. */
  function AdminGateLog(locals: Locals, ip: string, verb: string, path: string,
                        sha256: string -> Digest): (ev: Option<SecurityEvent>)
    ensures AdminMiddleware(locals).Reject? ==>
      ev == Some(AccessDenied(if locals.username.Some? then locals.username.value else Anonymous,
                              ip, path, MsgAdminRequired, sha256))
    ensures AdminMiddleware(locals).Continue? ==>
      ev == if locals.username.Some?
            then Some(AdminAction(locals.username.value, ip, verb + " " + path, "Admin endpoint accessed", sha256))
            else None
    ensures ev.Some? ==> (ev.value.eventType == "ACCESS_DENIED" <==> AdminMiddleware(locals).Reject?)
  {
    var user := if locals.username.Some? then locals.username.value else Anonymous;
    match AdminMiddleware(locals)
    case Reject(_, _) => Some(AccessDenied(user, ip, path, MsgAdminRequired, sha256))
    case Continue(_) =>
      if locals.username.Some?
      then Some(AdminAction(locals.username.value, ip, verb + " " + path, "Admin endpoint accessed", sha256))
      else None
  }

  /** Behind the token gate, an admin request is logged under the token's
      user name and a refused one names that user too. */
  lemma AdminGateNamesUser(header: string, jws: Jws, secret: string, now: int, ip: string, verb: string,
                           path: string, sha256: string -> Digest)
    requires AuthMiddleware(header, jws, secret, now).Continue?
    ensures var locals := AuthMiddleware(header, jws, secret, now).locals;
            var claims := ValidateToken(jws, secret, BearerToken(header).value, now).value;
            && AdminGateLog(locals, ip, verb, path, sha256).Some?
            && AdminGateLog(locals, ip, verb, path, sha256).value.userHash
               == HashIdentifier(StringClaim(claims, "username"), sha256)
  {
  }

  /** The reply GetUserID writes to the response. */
  datatype Written = Written(status: int, message: string)

  /** What GetUserID leaves behind. Its error result is always nil: Fiber's
      `JSON` returns nil once the body is written. So an absent user_id gives
      the id 0, a written 401 and an ACCESS_DENIED record, and the caller is
      not stopped. */
  datatype UserIdLookup = UserIdLookup(id: int, written: Option<Written>, logged: Option<SecurityEvent>)

  /** GetUserID, with `sha256` the hash the security log uses. */
  function GetUserID(locals: Locals, ip: string, path: string, sha256: string -> Digest): (r: UserIdLookup)
    ensures locals.userId.Some? ==> r == UserIdLookup(locals.userId.value, None, None)
    ensures locals.userId.None? ==>
      && r.id == 0 && r.written == Some(Written(401, MsgAuthRequired))
      && r.logged == Some(AccessDenied(Anonymous, ip, path, MsgNoUserId, sha256))
      && r.logged.value.userHash == Anonymous
    ensures r.written.Some? <==> locals.userId.None?
  {
    match locals.userId
    case None => UserIdLookup(0, Some(Written(401, MsgAuthRequired)),
                              Some(AccessDenied(Anonymous, ip, path, MsgNoUserId, sha256)))
    case Some(id) => UserIdLookup(id, None, None)
  }

  function GetUsername(locals: Locals): (r: Result<string>)
    ensures r.Err? <==> locals.username.None?
    ensures r.Ok? ==> Some(r.value) == locals.username
  {
    match locals.username
    case None => Err(MsgNoUsername)
    case Some(u) => Ok(u)
  }

  /** IsAdmin makes the same test as the admin gate. */
  function IsAdmin(locals: Locals): (b: bool)
    ensures b <==> AdminMiddleware(locals).Continue?
  {
    locals.isAdmin == Some(true)
  }

  /** Behind the token gate the admin gate and IsAdmin agree with the
      token's is_admin claim, and GetUserID finds the token's id without
      writing a reply. */
  lemma GatesCompose(header: string, jws: Jws, secret: string, now: int, ip: string, path: string,
                     sha256: string -> Digest)
    requires AuthMiddleware(header, jws, secret, now).Continue?
    ensures var locals := AuthMiddleware(header, jws, secret, now).locals;
            var claims := ValidateToken(jws, secret, BearerToken(header).value, now).value;
            && GetUserID(locals, ip, path, sha256).written.None?
            && GetUserID(locals, ip, path, sha256).id == Trunc(claims["user_id"].r)
            && (AdminMiddleware(locals).Continue? <==> BoolClaim(claims, "is_admin"))
            && (IsAdmin(locals) <==> AdminMiddleware(locals).Continue?)
  {
  }
}
