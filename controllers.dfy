/** The HTTP handlers' decision ladders: each turns a parsed request and the
    service's outcome into exactly one reply. JSON body parsing is the
    `Option` around the request (None: the body did not parse). */
module Controllers {
  import opened Wrappers
  import opened Strs
  import opened Crypto
  import opened Auth
  import Catalog
  import Rows
  import Playback
  import Search

  /** The JSON reply: status, the "error" flag, the optional "message" and
      the optional "data". */
  datatype Reply<T> = Reply(status: int, error: bool, message: Option<string>, data: Option<T>)

  function Fail<T>(status: int, message: string): Reply<T> {
    Reply(status, true, Some(message), None)
  }

  const MsgInvalidRequestData := "invalid request data"
  const MsgInvalidFormat := "Invalid request format"
  const MsgEmailRequired := "Valid email address is required"
  const MsgForgotReply := "If your email is registered, you will receive a password reset link shortly."
  const MsgResetTokenRequired := "Reset token is required"
  const MsgInvalidResetToken := "Invalid or expired reset token"
  const MsgAllFields := "All fields are required"
  const MsgMismatch := "Passwords do not match"
  const MsgPasswordLength := "Password must be at least 8 characters long"
  const MsgResetDone := "Password reset successful. Please login with your new password."
  const MsgFetchSongsFailed := "failed to fetch songs"
  const MsgInvalidCategory := "invalid category ID"
  const MsgNoTracks := "no tracks available"
  const MsgQueryRequired := "search query required"

  // ---------------------------------------------------------------------
  // isValidEmail
  // ---------------------------------------------------------------------

  /** More than 3 and fewer than 255 bytes, an '@' and a '.' anywhere. */
  function IsValidEmail(email: string): (b: bool)
    ensures b <==> 3 < Utf8Len(email) < 255 && '@' in email && '.' in email
  {
    ContainsChar(email, '@');
    ContainsChar(email, '.');
    Utf8Len(email) > 3 && Utf8Len(email) < 255 && Contains(email, "@") && Contains(email, ".")
  }

  /** The bounds are on bytes: three characters can pass when one of them
      needs two bytes, while three ASCII characters never do. */
  lemma EmailLengthInBytes()
    ensures IsValidEmail("é@.")
    ensures !IsValidEmail("a@.")
  {
    assert HasPrefix("é@."[1..], "@");
    assert HasPrefix("é@."[2..], ".");
    Utf8LenAscii("a@.");
  }

  // ---------------------------------------------------------------------
  // Register and Login
  // ---------------------------------------------------------------------

  datatype Handled<T> = Handled(reply: Reply<T>, users: UserTable)

  /** Register: a body that does not parse is 400; every service error is
      400 with the service's message, so a duplicate is never 409; success
      is 201 with the new user. */
  function Register(t: UserTable, body: Option<RegisterRequest>, bc: Bcrypt, salt: nat, now: int, dbFault: bool)
    : (out: Handled<User>)
    ensures out.reply.status == 201 || out.reply.status == 400
    ensures body.None? ==> out == Handled(Fail(400, MsgInvalidRequestData), t)
    ensures body.Some? && RegisterUser(t, body.value, bc, salt, now, dbFault).result.Err? ==>
      out == Handled(Fail(400, RegisterUser(t, body.value, bc, salt, now, dbFault).result.msg), t)
    ensures out.reply.status == 201 ==>
      && body.Some?
      && var reg := RegisterUser(t, body.value, bc, salt, now, dbFault);
      && reg.result.Ok?
      && out == Handled(Reply(201, false, Some("user registered successfully"), Some(reg.result.value)), reg.users)
  {
    match body
    case None => Handled(Fail(400, MsgInvalidRequestData), t)
    case Some(req) =>
      var reg := RegisterUser(t, req, bc, salt, now, dbFault);
      match reg.result
      case Err(msg) => Handled(Fail(400, msg), t)
      case Ok(user) => Handled(Reply(201, false, Some("user registered successfully"), Some(user)), reg.users)
  }

  /** A taken username is answered 400 "username or email already exists". */
  lemma DuplicateRegistrationIs400(t: UserTable, req: RegisterRequest, bc: Bcrypt, salt: nat, now: int)
    requires Utf8Len(req.password) >= MinPasswordBytes && bc.generate(req.password, DefaultCost, salt).Some?
    requires UsernameTaken(t, req.username)
    ensures Register(t, Some(req), bc, salt, now, false) == Handled(Fail(400, MsgDuplicate), t)
  {
  }

  /** Login: every service error is 401 with the service's message. */
  function Login(t: UserTable, body: Option<LoginRequest>, bc: Bcrypt, jws: Jws, secret: string, now: int,
                 queryFault: bool, updateFault: bool): (out: Handled<Session>)
    ensures body.None? ==> out == Handled(Fail(400, MsgInvalidRequestData), t)
    ensures body.Some? ==>
      var li := LoginUser(t, body.value, bc, jws, secret, now, queryFault, updateFault);
      && out.users == li.users
      && (li.result.Err? ==> out.reply == Fail(401, li.result.msg))
      && (li.result.Ok? ==> out.reply == Reply(200, false, Some("login successful"), Some(li.result.value)))
  {
    match body
    case None => Handled(Fail(400, MsgInvalidRequestData), t)
    case Some(req) =>
      var li := LoginUser(t, req, bc, jws, secret, now, queryFault, updateFault);
      match li.result
      case Err(msg) => Handled(Fail(401, msg), li.users)
      case Ok(session) => Handled(Reply(200, false, Some("login successful"), Some(session)), li.users)
  }

  /** An unknown account and a wrong password get the same reply. */
  lemma FailedLoginsLookAlike(t: UserTable, unknown: LoginRequest, wrong: LoginRequest, bc: Bcrypt, jws: Jws,
                              secret: string, now: int)
    requires FindLogin(t.rows, unknown.username).None?
    requires FindLogin(t.rows, wrong.username).Some?
    requires !bc.compare(t.rows[FindLogin(t.rows, wrong.username).value].passwordHash, wrong.password)
    ensures Login(t, Some(unknown), bc, jws, secret, now, false, false).reply
         == Login(t, Some(wrong), bc, jws, secret, now, false, false).reply
         == Fail(401, MsgAuthFailed)
  {
  }

  // ---------------------------------------------------------------------
  // ForgotPassword
  // ---------------------------------------------------------------------

  /** The reply never depends on what the service did. */
  function ForgotPasswordReply(body: Option<string>): (r: Reply<()>)
    ensures body.None? ==> r == Fail(400, MsgInvalidFormat)
    ensures body.Some? && !IsValidEmail(body.value) ==> r == Fail(400, MsgEmailRequired)
    ensures body.Some? && IsValidEmail(body.value) ==> r == Reply(200, false, Some(MsgForgotReply), None)
  {
    match body
    case None => Fail(400, MsgInvalidFormat)
    case Some(email) =>
      if email == "" || !IsValidEmail(email) then Fail(400, MsgEmailRequired)
      else Reply(200, false, Some(MsgForgotReply), None)
  }

  /** Registered or not, two well-formed addresses get identical replies. */
  lemma ForgotPasswordNoEnumeration(a: string, b: string)
    requires IsValidEmail(a) && IsValidEmail(b)
    ensures ForgotPasswordReply(Some(a)) == ForgotPasswordReply(Some(b))
  {
  }

  /** ForgotPassword: the service runs only for a well-formed address; its
      error is logged and dropped. */
  method ForgotPassword(store: ResetStore, body: Option<string>, users: UserTable, queryFault: bool,
                        random: Option<Bytes32>, mailSent: bool, now: int) returns (rep: Reply<()>)
    requires store.Valid()
    modifies store
    ensures store.Valid()
    ensures rep == ForgotPasswordReply(body)
    ensures body.None? || !IsValidEmail(body.value) ==> store.entries == old(store.entries)
    ensures body.Some? && IsValidEmail(body.value) ==>
      var e := body.value;
      && (queryFault || !EmailTaken(users, e) || random.None? ==> store.entries == old(store.entries))
      && (!queryFault && EmailTaken(users, e) && random.Some? && !mailSent ==>
            store.entries == old(store.entries) - {e})
      && (!queryFault && EmailTaken(users, e) && random.Some? && mailSent ==>
            store.entries == old(store.entries)[e := ResetEntry(GenerateSecureToken(random).value, e, now + ResetTtl)])
    ensures forall k :: (body.None? || k != body.value) ==>
      (k in store.entries <==> k in old(store.entries)) &&
      (k in store.entries ==> store.entries[k] == old(store.entries)[k])
  {
    rep := ForgotPasswordReply(body);
    if body.Some? && body.value != "" && IsValidEmail(body.value) {
      var _ := store.RequestPasswordReset(body.value, users, queryFault, random, mailSent, now);
    }
  }

  // ---------------------------------------------------------------------
  // ValidateResetToken
  // ---------------------------------------------------------------------

  /** Every service error, expired or unknown, is the same 400. */
  function ResetTokenReply(result: Result<string>): (r: Reply<string>)
    ensures result.Err? ==> r == Fail(400, MsgInvalidResetToken)
    ensures result.Ok? ==> r == Reply(200, false, None, Some(result.value))
  {
    match result
    case Err(_) => Fail(400, MsgInvalidResetToken)
    case Ok(email) => Reply(200, false, None, Some(email))
  }

  method ValidateResetToken(store: ResetStore, token: string, now: int) returns (rep: Reply<string>)
    requires store.Valid()
    modifies store
    ensures store.Valid()
    ensures token == "" ==> rep == Fail(400, MsgResetTokenRequired) && store.entries == old(store.entries)
    ensures token != "" ==> rep.status == 200 || rep == Fail(400, MsgInvalidResetToken)
    ensures rep.status == 200 ==>
      rep.data.Some? && Resolves(old(store.entries), token, now, rep.data.value) && store.entries == old(store.entries)
    ensures rep == Fail(400, MsgInvalidResetToken) ==>
      || ((forall k :: !Matches(old(store.entries), token, k)) && store.entries == old(store.entries))
      || exists k :: Matches(old(store.entries), token, k) && now > old(store.entries)[k].expiresAt
                     && store.entries == old(store.entries) - {k}
  {
    if token == "" {
      return Fail(400, MsgResetTokenRequired);
    }
    var r := store.ValidateResetToken(token, now);
    rep := ResetTokenReply(r);
  }

  // ---------------------------------------------------------------------
  // ResetPassword
  // ---------------------------------------------------------------------

  datatype ResetRequest = ResetRequest(token: string, newPassword: string, confirmPassword: string)

  /** The three checks, in order; None means the service is called. */
  function ResetPasswordPrecheck(req: ResetRequest): (r: Option<Reply<()>>)
    ensures r.None? <==>
      && req.token != "" && req.newPassword != "" && req.confirmPassword != ""
      && req.newPassword == req.confirmPassword && Utf8Len(req.newPassword) >= MinPasswordBytes
    ensures req.token == "" || req.newPassword == "" || req.confirmPassword == "" ==>
      r == Some(Fail(400, MsgAllFields))
    ensures (req.token != "" && req.newPassword != "" && req.confirmPassword != "" &&
             req.newPassword != req.confirmPassword) ==> r == Some(Fail(400, MsgMismatch))
    ensures (req.token != "" && req.newPassword != "" && req.newPassword == req.confirmPassword &&
             Utf8Len(req.newPassword) < MinPasswordBytes) ==> r == Some(Fail(400, MsgPasswordLength))
  {
    if req.token == "" || req.newPassword == "" || req.confirmPassword == "" then Some(Fail(400, MsgAllFields))
    else if req.newPassword != req.confirmPassword then Some(Fail(400, MsgMismatch))
    else if Utf8Len(req.newPassword) < MinPasswordBytes then Some(Fail(400, MsgPasswordLength))
    else None
  }

  /** The handler's length check makes the service's own one unreachable. */
  lemma PrecheckCoversServicePolicy(req: ResetRequest, e: string, users: UserTable, queryFault: bool,
                                    bc: Bcrypt, salt: nat, updateFault: bool)
    requires ResetPasswordPrecheck(req).None?
    ensures ResetOutcome(e, req.newPassword, users, queryFault, bc, salt, updateFault).0 != Err(MsgPasswordTooShort)
  {
  }

  /** The handler's reply to the service: 400 with the service's own message
      on an error, 200 with the fixed message on success. */
  function ResetPasswordReply(result: Result<()>): (rep: Reply<()>)
    ensures result.Err? ==> rep == Fail(400, result.msg)
    ensures result.Ok? ==> rep == Reply(200, false, Some(MsgResetDone), None)
    ensures rep.status == 200 <==> result.Ok?
  {
    match result
    case Err(m) => Fail(400, m)
    case Ok(_) => Reply(200, false, Some(MsgResetDone), None)
  }

  /** ResetPassword: nothing reaches the store unless every check passes;
      a service error is 400 with the service's message. */
  method ResetPassword(store: ResetStore, body: Option<ResetRequest>, users: UserTable, queryFault: bool,
                       bc: Bcrypt, salt: nat, updateFault: bool, now: int)
    returns (rep: Reply<()>, users': UserTable)
    requires store.Valid()
    modifies store
    ensures store.Valid()
    ensures body.None? ==> rep == Fail(400, MsgInvalidFormat) && store.entries == old(store.entries) && users' == users
    ensures body.Some? && ResetPasswordPrecheck(body.value).Some? ==>
      rep == ResetPasswordPrecheck(body.value).value && store.entries == old(store.entries) && users' == users
    ensures rep.status == 200 ==>
      && rep == Reply(200, false, Some(MsgResetDone), None)
      && body.Some? && ResetPasswordPrecheck(body.value).None?
      && exists e :: Resolves(old(store.entries), body.value.token, now, e) && store.entries == old(store.entries) - {e}
    ensures rep.status != 200 ==> rep.status == 400 && rep.error && users' == users
    ensures rep.error && rep.message != Some(MsgResetExpired) ==> store.entries == old(store.entries)
    ensures body.Some? && ResetPasswordPrecheck(body.value).None? &&
            (forall k :: !Matches(old(store.entries), body.value.token, k)) ==>
      rep == Fail(400, MsgResetInvalid) && users' == users
    ensures body.Some? && ResetPasswordPrecheck(body.value).None? && TokensUnique(old(store.entries)) ==>
      forall k :: Matches(old(store.entries), body.value.token, k) && now > old(store.entries)[k].expiresAt ==>
        rep == Fail(400, MsgResetExpired) && users' == users
    ensures body.Some? && ResetPasswordPrecheck(body.value).None? && TokensUnique(old(store.entries)) ==>
      forall e :: Resolves(old(store.entries), body.value.token, now, e) ==>
        var o := ResetOutcome(e, body.value.newPassword, users, queryFault, bc, salt, updateFault);
        rep == ResetPasswordReply(o.0) && users' == o.1
  {
    if body.None? {
      return Fail(400, MsgInvalidFormat), users;
    }
    var req := body.value;
    var pre := ResetPasswordPrecheck(req);
    if pre.Some? {
      return pre.value, users;
    }
    var r;
    r, users' := store.ResetPassword(req.token, req.newPassword, users, queryFault, bc, salt, updateFault, now);
    return ResetPasswordReply(r), users';
  }

  // ---------------------------------------------------------------------
  // GetRecentSongs
  // ---------------------------------------------------------------------

  /** The `limit` query parameter: 20 unless it parses as an integer. */
  function RecentLimit(param: string): (n: int)
    ensures param == "" || Atoi(param).None? ==> n == Playback.DefaultRecentLimit
    ensures Atoi(param).Some? ==> n == Atoi(param).value
  {
    if param == "" then Playback.DefaultRecentLimit
    else match Atoi(param)
      case Some(v) => v
      case None => Playback.DefaultRecentLimit
  }

  /** A parameter written as a number is used as that number, and the
      service then turns a non-positive one into 20. */
  lemma RecentLimitOfNumber(n: int)
    requires MinInt64 <= n <= MaxInt64
    ensures RecentLimit(Itoa(n)) == n
    ensures Playback.EffectiveLimit(RecentLimit(Itoa(n))) == if n <= 0 then 20 else n
  {
    AtoiItoa(n);
  }

  method GetRecentSongs(t: Catalog.Tables, param: string, queryFault: bool) returns (rep: Reply<seq<Rows.SongView>>)
    ensures queryFault ==> rep == Fail(500, MsgFetchSongsFailed)
    ensures !queryFault ==> rep == Reply(200, false, None, Some(Playback.RecentSongs(t, RecentLimit(param))))
  {
    var limit := Playback.DefaultRecentLimit;
    if param != "" {
      var parsed := Atoi(param);
      if parsed.Some? {
        limit := parsed.value;
      }
    }
    var r := Playback.GetRecentSongs(t, limit, queryFault);
    if r.Err? {
      return Fail(500, MsgFetchSongsFailed);
    }
    return Reply(200, false, None, Some(r.value));
  }

  // ---------------------------------------------------------------------
  // Search and GetSongsByCategory
  // ---------------------------------------------------------------------

  /** Search: an empty query is refused before the service, so the
      service's own empty-query answer is never reached from here. */
  method SearchHandler(t: Catalog.Tables, query: string, faults: Search.SearchFaults)
    returns (rep: Reply<Search.SearchResult>)
    ensures query == "" ==> rep == Fail(400, MsgQueryRequired)
    ensures query != "" ==> rep.status == 200 && !rep.error && rep.data.Some?
    ensures query != "" ==>
      && rep.data.value.songs == (if faults.songs then [] else Search.SongResults(t, Lower(query)))
      && rep.data.value.artists == (if faults.artists then [] else Search.ArtistResults(t, Lower(query)))
      && rep.data.value.albums == (if faults.albums then [] else Search.AlbumResults(t, Lower(query)))
      && rep.data.value.playlists == []
  {
    if query == "" {
      return Fail(400, MsgQueryRequired);
    }
    var results := Search.FullTextSearch(t, query, faults);
    return Reply(200, false, None, Some(results));
  }

  /** GetSongsByCategory: a non-integer id is 400, a failing query 500, an
      empty result a success with "no tracks available" and an empty list. */
  method GetSongsByCategory(t: Catalog.Tables, idParam: string, queryFault: bool)
    returns (rep: Reply<seq<Rows.SongView>>)
    ensures Atoi(idParam).None? ==> rep == Fail(400, MsgInvalidCategory)
    ensures Atoi(idParam).Some? && queryFault ==> rep == Fail(500, MsgFetchSongsFailed)
    ensures Atoi(idParam).Some? && !queryFault ==>
      var songs := Search.CategorySongs(t, Atoi(idParam).value);
      rep == if songs == [] then Reply(200, false, Some(MsgNoTracks), Some([]))
             else Reply(200, false, None, Some(songs))
  {
    var id := Atoi(idParam);
    if id.None? {
      return Fail(400, MsgInvalidCategory);
    }
    var r := Search.GetSongsByCategory(t, id.value, queryFault);
    if r.Err? {
      return Fail(500, MsgFetchSongsFailed);
    }
    if |r.value| == 0 {
      return Reply(200, false, Some(MsgNoTracks), Some([]));
    }
    return Reply(200, false, None, Some(r.value));
  }
}
