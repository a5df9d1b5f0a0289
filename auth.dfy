/** The authentication service: the users table with its UNIQUE constraints,
    registration, login, session tokens, and the process-wide password-reset
    store. Database faults that the service distinguishes are passed in as
    flags; the clock is a number of seconds. */
module Auth {
  import opened Wrappers
  import opened Strs
  import opened Crypto

  const MinPasswordBytes: nat := 8
  /** Reset tokens live 15 minutes, session tokens 7 days. */
  const ResetTtl: int := 15 * 60
  const TokenTtl: int := 7 * 24 * 3600

  const MsgPasswordTooShort := "password must be at least 8 characters"
  const MsgRegistrationFailed := "failed to process registration"
  const MsgDuplicate := "username or email already exists"
  const MsgAuthFailed := "authorization failed"
  const MsgTokenFailed := "failed to generate authentication token"
  const MsgInvalidOrExpired := "invalid or expired token"
  const MsgTokenExpired := "token has expired"
  const MsgResetProcess := "failed to process request"
  const MsgResetToken := "failed to generate reset token"
  const MsgResetMail := "failed to send reset email"
  const MsgResetExpired := "reset token has expired"
  const MsgResetInvalid := "invalid reset token"
  const MsgUserNotFound := "user not found"
  const MsgProcessPassword := "failed to process password"
  const MsgUpdatePassword := "failed to update password"

  // ---------------------------------------------------------------------
  // Password policy
  // ---------------------------------------------------------------------

  /** CheckPasswordPolicy: at least eight bytes of UTF-8, nothing else. */
  function CheckPasswordPolicy(password: string): (r: Result<()>)
    ensures r.Ok? <==> Utf8Len(password) >= MinPasswordBytes
    ensures r.Err? ==> r.msg == MsgPasswordTooShort
  {
    if Utf8Len(password) < MinPasswordBytes then Err(MsgPasswordTooShort) else Ok(())
  }

  lemma PasswordPolicyExamples()
    ensures CheckPasswordPolicy("12345678").Ok?
    ensures CheckPasswordPolicy("1234567").Err?
    ensures CheckPasswordPolicy("").Err?
  {
    Utf8LenAscii("12345678");
    Utf8LenAscii("1234567");
  }

  // ---------------------------------------------------------------------
  // The users table
  // ---------------------------------------------------------------------

  datatype UserRow = UserRow(
    id: nat, username: string, email: string, passwordHash: string, isAdmin: bool,
    profileImagePath: Option<string>, createdAt: int, lastLogin: Option<int>)

  /** models.User as the service returns it; the hash is never part of it. */
  datatype User = User(
    id: nat, username: string, email: string, isAdmin: bool,
    profileImagePath: Option<string>, createdAt: int, lastLogin: Option<int>)

  /** Rows in insertion order and the next AUTOINCREMENT id. */
  datatype UserTable = UserTable(rows: seq<UserRow>, nextId: nat)

  /** Ids increase with insertion and stay below nextId; username and
      email are each UNIQUE. */
  predicate ValidTable(t: UserTable) {
    && (forall i :: 0 <= i < |t.rows| ==> t.rows[i].id < t.nextId)
    && (forall i, j :: 0 <= i < j < |t.rows| ==> t.rows[i].id < t.rows[j].id)
    && (forall i, j :: 0 <= i < j < |t.rows| ==> t.rows[i].username != t.rows[j].username)
    && (forall i, j :: 0 <= i < j < |t.rows| ==> t.rows[i].email != t.rows[j].email)
  }

  predicate UsernameTaken(t: UserTable, u: string) {
    exists i :: 0 <= i < |t.rows| && t.rows[i].username == u
  }

  predicate EmailTaken(t: UserTable, e: string) {
    exists i :: 0 <= i < |t.rows| && t.rows[i].email == e
  }

  /** `SELECT ... WHERE email = ?`: the row with that e-mail, if any. */
  function FindByEmail(rows: seq<UserRow>, email: string): (r: Option<nat>)
    ensures r.Some? ==> r.value < |rows| && rows[r.value].email == email
    ensures r.None? <==> forall i :: 0 <= i < |rows| ==> rows[i].email != email
  {
    if rows == [] then None
    else if rows[|rows| - 1].email == email then Some(|rows| - 1)
    else FindByEmail(rows[..|rows| - 1], email)
  }

  // ---------------------------------------------------------------------
  // RegisterUser
  // ---------------------------------------------------------------------

  datatype RegisterRequest = RegisterRequest(username: string, email: string, password: string)

  datatype Registered = Registered(result: Result<User>, users: UserTable)

  /** The row an accepted registration inserts. */
  function NewUserRow(t: UserTable, req: RegisterRequest, hash: string, now: int): UserRow {
    UserRow(t.nextId, req.username, req.email, hash, false, None, now, None)
  }

  /** RegisterUser: the policy check comes before bcrypt and the INSERT; the
      INSERT fails on either UNIQUE constraint or on any other database
      error (`dbFault`), always with the same message. */
  function RegisterUser(t: UserTable, req: RegisterRequest, bc: Bcrypt, salt: nat, now: int, dbFault: bool)
    : (out: Registered)
    ensures Utf8Len(req.password) < MinPasswordBytes ==> out == Registered(Err(MsgPasswordTooShort), t)
    ensures out.result.Err? ==> out.users == t
    ensures Utf8Len(req.password) >= MinPasswordBytes && bc.generate(req.password, DefaultCost, salt).None?
            ==> out == Registered(Err(MsgRegistrationFailed), t)
    ensures Utf8Len(req.password) >= MinPasswordBytes && bc.generate(req.password, DefaultCost, salt).Some?
            && (UsernameTaken(t, req.username) || EmailTaken(t, req.email) || dbFault)
            ==> out.result == Err(MsgDuplicate)
    ensures out.result.Ok? <==>
      && Utf8Len(req.password) >= MinPasswordBytes && bc.generate(req.password, DefaultCost, salt).Some?
      && !UsernameTaken(t, req.username) && !EmailTaken(t, req.email) && !dbFault
    ensures out.result.Ok? ==>
      && out.result.value == User(t.nextId, req.username, req.email, false, None, now, None)
      && out.users.rows == t.rows + [NewUserRow(t, req, bc.generate(req.password, DefaultCost, salt).value, now)]
      && out.users.nextId == t.nextId + 1
    ensures ValidTable(t) ==> ValidTable(out.users)
    ensures BcryptSound(bc) && out.result.Ok? ==>
      bc.compare(out.users.rows[|t.rows|].passwordHash, req.password)
  {
    if Utf8Len(req.password) < MinPasswordBytes then Registered(Err(MsgPasswordTooShort), t)
    else
      match bc.generate(req.password, DefaultCost, salt)
      case None => Registered(Err(MsgRegistrationFailed), t)
      case Some(hash) =>
        if UsernameTaken(t, req.username) || EmailTaken(t, req.email) || dbFault then
          Registered(Err(MsgDuplicate), t)
        else
          var row := NewUserRow(t, req, hash, now);
          Registered(Ok(User(t.nextId, req.username, req.email, false, None, now, None)),
                     UserTable(t.rows + [row], t.nextId + 1))
  }

  /** A duplicate username and a duplicate e-mail cannot be told apart. */
  lemma DuplicatesLookAlike(t: UserTable, a: RegisterRequest, b: RegisterRequest, bc: Bcrypt, salt: nat, now: int)
    requires a.password == b.password && Utf8Len(a.password) >= MinPasswordBytes
    requires bc.generate(a.password, DefaultCost, salt).Some?
    requires UsernameTaken(t, a.username) && EmailTaken(t, b.email)
    ensures RegisterUser(t, a, bc, salt, now, false) == RegisterUser(t, b, bc, salt, now, false)
  {
  }

  // ---------------------------------------------------------------------
  // Session tokens
  // ---------------------------------------------------------------------

  /** The claims of a session token issued at `now`. */
  function TokenClaims(user: User, now: int): (c: Claims)
    ensures c.Keys == {"user_id", "username", "is_admin", "exp", "iat"}
    ensures c["user_id"] == JNum(user.id as real) && c["username"] == JStr(user.username)
    ensures c["is_admin"] == JBool(user.isAdmin)
    ensures c["iat"] == JNum(now as real) && c["exp"].JNum? && c["exp"].r == c["iat"].r + TokenTtl as real
  {
    map["user_id" := JNum(user.id as real), "username" := JStr(user.username),
        "is_admin" := JBool(user.isAdmin), "exp" := JNum((now + TokenTtl) as real),
        "iat" := JNum(now as real)]
  }

  /** GenerateToken: HS256 over the five claims. */
  function GenerateToken(jws: Jws, secret: string, user: User, now: int): (r: Result<string>)
    ensures r.Ok? <==> jws.sign(HS256, TokenClaims(user, now), secret).Some?
    ensures JwsSound(jws) && r.Ok? ==>
      jws.decode(r.value) == Some((HS256, TokenClaims(user, now))) && ' ' !in r.value
  {
    match jws.sign(HS256, TokenClaims(user, now), secret)
    case None => Err("token signing failed")
    case Some(t) => Ok(t)
  }

  /** The explicit expiry test: a numeric `exp` in the past. A token
      without a numeric `exp` never fails it. */
  predicate Expired(claims: Claims, now: int) {
    "exp" in claims && claims["exp"].JNum? && now > Trunc(claims["exp"].r)
  }

  /** ValidateToken: parse, insist on an HMAC method, check the signature
      with the server secret, then the explicit `exp` test. */
  function ValidateToken(jws: Jws, secret: string, token: string, now: int): (r: Result<Claims>)
    ensures r.Ok? ==>
      && jws.decode(token).Some? && IsHmac(jws.decode(token).value.0)
      && jws.verify(token, jws.decode(token).value.0, secret)
      && r.value == jws.decode(token).value.1 && !Expired(r.value, now)
    ensures jws.decode(token).Some? && IsHmac(jws.decode(token).value.0)
            && jws.verify(token, jws.decode(token).value.0, secret)
            && !Expired(jws.decode(token).value.1, now)
            ==> r == Ok(jws.decode(token).value.1)
    ensures jws.decode(token).Some? && IsHmac(jws.decode(token).value.0)
            && jws.verify(token, jws.decode(token).value.0, secret)
            && Expired(jws.decode(token).value.1, now)
            ==> r == Err(MsgTokenExpired)
    ensures jws.decode(token).None? ==> r == Err(MsgInvalidOrExpired)
    ensures jws.decode(token).Some? && !IsHmac(jws.decode(token).value.0) ==> r == Err(MsgInvalidOrExpired)
    ensures jws.decode(token).Some? && !jws.verify(token, jws.decode(token).value.0, secret)
            ==> r == Err(MsgInvalidOrExpired)
    ensures r.Err? ==> r.msg == MsgInvalidOrExpired || r.msg == MsgTokenExpired
  {
    match jws.decode(token)
    case None => Err(MsgInvalidOrExpired)
    case Some((alg, claims)) =>
      if !IsHmac(alg) || !jws.verify(token, alg, secret) then Err(MsgInvalidOrExpired)
      else if Expired(claims, now) then Err(MsgTokenExpired)
      else Ok(claims)
  }

  /** A freshly issued token validates, until its seventh day is over, to exactly the
      claims it was signed with. */
  lemma TokenRoundTrip(jws: Jws, secret: string, user: User, iat: int, now: int)
    requires JwsSound(jws) && GenerateToken(jws, secret, user, iat).Ok?
    requires now <= iat + TokenTtl
    ensures ValidateToken(jws, secret, GenerateToken(jws, secret, user, iat).value, now)
            == Ok(TokenClaims(user, iat))
  {
    TruncWhole(iat + TokenTtl);
    var c := TokenClaims(user, iat);
    assert jws.sign(HS256, c, secret).Some?;
  }

  /** After `exp` the same token is refused as expired. */
  lemma TokenExpires(jws: Jws, secret: string, user: User, iat: int, now: int)
    requires JwsSound(jws) && GenerateToken(jws, secret, user, iat).Ok?
    requires now > iat + TokenTtl
    ensures ValidateToken(jws, secret, GenerateToken(jws, secret, user, iat).value, now) == Err(MsgTokenExpired)
  {
    TruncWhole(iat + TokenTtl);
    var c := TokenClaims(user, iat);
    assert jws.sign(HS256, c, secret).Some?;
  }

  // ---------------------------------------------------------------------
  // LoginUser
  // ---------------------------------------------------------------------

  datatype LoginRequest = LoginRequest(username: string, password: string)

  datatype Session = Session(token: string, user: User)

  datatype LoggedIn = LoggedIn(result: Result<Session>, users: UserTable)

  predicate LoginMatch(row: UserRow, ident: string) {
    row.username == ident || row.email == ident
  }

  /** `WHERE username = ? OR email = ?`: the first matching row in
      insertion order. */
  function FindLogin(rows: seq<UserRow>, ident: string): (r: Option<nat>)
    ensures r.Some? ==>
      && r.value < |rows| && LoginMatch(rows[r.value], ident)
      && (forall j :: 0 <= j < r.value ==> !LoginMatch(rows[j], ident))
    ensures r.None? <==> forall j :: 0 <= j < |rows| ==> !LoginMatch(rows[j], ident)
  {
    if rows == [] then None
    else if LoginMatch(rows[0], ident) then Some(0)
    else
      var r := FindLogin(rows[1..], ident);
      if r.None? then None else Some(r.value + 1)
  }

  /** The selected columns, which do not include last_login. */
  function LoginView(row: UserRow): User {
    User(row.id, row.username, row.email, row.isAdmin, row.profileImagePath, row.createdAt, None)
  }

  function TouchLastLogin(t: UserTable, id: nat, now: int): (t': UserTable)
    ensures |t'.rows| == |t.rows| && t'.nextId == t.nextId
    ensures forall i :: 0 <= i < |t.rows| ==>
      t'.rows[i] == (if t.rows[i].id == id then t.rows[i].(lastLogin := Some(now)) else t.rows[i])
    ensures ValidTable(t) ==> ValidTable(t')
  {
    UserTable(seq(|t.rows|, i requires 0 <= i < |t.rows| =>
      if t.rows[i].id == id then t.rows[i].(lastLogin := Some(now)) else t.rows[i]), t.nextId)
  }

  /** LoginUser. `queryFault` is a failing SELECT and `updateFault` a
      failing last-login UPDATE; the UPDATE happens before the token is
      signed, so it stays even when signing then fails. */
  function LoginUser(t: UserTable, req: LoginRequest, bc: Bcrypt, jws: Jws, secret: string, now: int,
                     queryFault: bool, updateFault: bool): (out: LoggedIn)
    ensures queryFault || FindLogin(t.rows, req.username).None? ==> out == LoggedIn(Err(MsgAuthFailed), t)
    ensures !queryFault && FindLogin(t.rows, req.username).Some? &&
            !bc.compare(t.rows[FindLogin(t.rows, req.username).value].passwordHash, req.password)
            ==> out == LoggedIn(Err(MsgAuthFailed), t)
    ensures out.result.Err? ==> out.result.msg == MsgAuthFailed || out.result.msg == MsgTokenFailed
    ensures !queryFault && FindLogin(t.rows, req.username).Some? &&
            bc.compare(t.rows[FindLogin(t.rows, req.username).value].passwordHash, req.password) &&
            GenerateToken(jws, secret, LoginView(t.rows[FindLogin(t.rows, req.username).value]), now).Err?
            ==> out.result == Err(MsgTokenFailed)
    ensures out.result.Ok? ==>
      && !queryFault && FindLogin(t.rows, req.username).Some?
      && var row := t.rows[FindLogin(t.rows, req.username).value];
      && bc.compare(row.passwordHash, req.password)
      && out.result.value.user == LoginView(row)
      && GenerateToken(jws, secret, LoginView(row), now) == Ok(out.result.value.token)
    ensures ValidTable(t) ==> ValidTable(out.users)
  {
    if queryFault then LoggedIn(Err(MsgAuthFailed), t)
    else
      match FindLogin(t.rows, req.username)
      case None => LoggedIn(Err(MsgAuthFailed), t)
      case Some(i) =>
        var row := t.rows[i];
        if !bc.compare(row.passwordHash, req.password) then LoggedIn(Err(MsgAuthFailed), t)
        else
          var t' := if updateFault then t else TouchLastLogin(t, row.id, now);
          var user := LoginView(row);
          match GenerateToken(jws, secret, user, now)
          case Err(_) => LoggedIn(Err(MsgTokenFailed), t')
          case Ok(token) => LoggedIn(Ok(Session(token, user)), t')
  }

  /** A failed last-login update does not change what the caller sees. */
  lemma LoginIgnoresUpdateFault(t: UserTable, req: LoginRequest, bc: Bcrypt, jws: Jws, secret: string,
                                now: int, queryFault: bool)
    ensures LoginUser(t, req, bc, jws, secret, now, queryFault, true).result
         == LoginUser(t, req, bc, jws, secret, now, queryFault, false).result
  {
  }

  /** Registering and then logging in with the same username and password
      opens a session for the new user, provided no older account uses
      that username as its e-mail. */
  lemma RegisterThenLogin(t: UserTable, req: RegisterRequest, bc: Bcrypt, salt: nat, jws: Jws,
                          secret: string, now: int)
    requires ValidTable(t) && BcryptSound(bc) && JwsSound(jws)
    requires RegisterUser(t, req, bc, salt, now, false).result.Ok?
    requires !EmailTaken(t, req.username)
    requires jws.sign(HS256, TokenClaims(
               LoginView(RegisterUser(t, req, bc, salt, now, false).users.rows[|t.rows|]), now), secret).Some?
    ensures var users := RegisterUser(t, req, bc, salt, now, false).users;
            var login := LoginUser(users, LoginRequest(req.username, req.password), bc, jws, secret, now, false, false);
            && login.result.Ok?
            && login.result.value.user == User(t.nextId, req.username, req.email, false, None, now, None)
  {
    var users := RegisterUser(t, req, bc, salt, now, false).users;
    var n := |t.rows|;
    assert forall j :: 0 <= j < n ==> users.rows[j] == t.rows[j];
    assert users.rows[n].username == req.username;
    assert forall j :: 0 <= j < n ==> !LoginMatch(users.rows[j], req.username) by {
      forall j | 0 <= j < n
        ensures !LoginMatch(users.rows[j], req.username)
      {
        assert users.rows[j] == t.rows[j];
        assert !UsernameTaken(t, req.username);
      }
    }
    var found := FindLogin(users.rows, req.username);
    assert found == Some(n);
  }

  // ---------------------------------------------------------------------
  // The password-reset store
  // ---------------------------------------------------------------------

  datatype ResetEntry = ResetEntry(token: string, email: string, expiresAt: int)

  type ResetMap = map<string, ResetEntry>

  /** The entry stored under `k` carries `token`. */
  predicate Matches(m: ResetMap, token: string, k: string) {
    k in m && m[k].token == token
  }

  /** Every entry sits under its own e-mail. */
  predicate KeyedByEmail(m: ResetMap) {
    forall k :: k in m ==> m[k].email == k
  }

  /** No two entries carry the same token (random 256-bit tokens). */
  predicate TokensUnique(m: ResetMap) {
    forall a, b :: a in m && b in m && m[a].token == m[b].token ==> a == b
  }

  /** `token` is live for `email` at time `now`. */
  predicate Resolves(m: ResetMap, token: string, now: int, email: string) {
    Matches(m, token, email) && now <= m[email].expiresAt
  }

  /** Storing a new token for an e-mail makes the token stored before it
      unresolvable, at any time. */
  lemma ReRequestRetiresOldToken(m: ResetMap, email: string, newEntry: ResetEntry, m': ResetMap, now: int)
    requires TokensUnique(m) && email in m && newEntry.token != m[email].token
    requires m' == m[email := newEntry]
    ensures forall k :: !Resolves(m', m[email].token, now, k)
  {
  }

  /** Removing an entry kills its token when tokens are unique. */
  lemma RemovalRetiresToken(m: ResetMap, email: string, m': ResetMap)
    requires TokensUnique(m) && email in m
    requires m' == m - {email}
    ensures forall k :: !Matches(m', m[email].token, k)
  {
  }

  /** UPDATE users SET password_hash = ? WHERE id = ? */
  function SetPasswordHash(t: UserTable, id: nat, hash: string): (t': UserTable)
    ensures |t'.rows| == |t.rows| && t'.nextId == t.nextId
    ensures forall i :: 0 <= i < |t.rows| ==>
      t'.rows[i] == (if t.rows[i].id == id then t.rows[i].(passwordHash := hash) else t.rows[i])
  {
    UserTable(seq(|t.rows|, i requires 0 <= i < |t.rows| =>
      if t.rows[i].id == id then t.rows[i].(passwordHash := hash) else t.rows[i]), t.nextId)
  }

  /** What ResetPassword answers once the token has resolved to `email`:
      the policy check, the user lookup, the hash and the UPDATE, in order,
      with the users table after it. */
  function ResetOutcome(email: string, newPassword: string, users: UserTable, queryFault: bool,
                        bc: Bcrypt, salt: nat, updateFault: bool): (o: (Result<()>, UserTable))
    ensures o.0.Ok? <==>
      && Utf8Len(newPassword) >= MinPasswordBytes && !queryFault && FindByEmail(users.rows, email).Some?
      && bc.generate(newPassword, ResetCost, salt).Some? && !updateFault
    ensures Utf8Len(newPassword) < MinPasswordBytes ==> o.0 == Err(MsgPasswordTooShort)
    ensures Utf8Len(newPassword) >= MinPasswordBytes && (queryFault || FindByEmail(users.rows, email).None?) ==>
      o.0 == Err(MsgUserNotFound)
    ensures Utf8Len(newPassword) >= MinPasswordBytes && !queryFault && FindByEmail(users.rows, email).Some? ==>
      && (bc.generate(newPassword, ResetCost, salt).None? ==> o.0 == Err(MsgProcessPassword))
      && (bc.generate(newPassword, ResetCost, salt).Some? && updateFault ==> o.0 == Err(MsgUpdatePassword))
    ensures o.0.Err? ==> o.1 == users
    ensures o.0.Ok? ==>
      o.1 == SetPasswordHash(users, users.rows[FindByEmail(users.rows, email).value].id,
                             bc.generate(newPassword, ResetCost, salt).value)
  {
    if Utf8Len(newPassword) < MinPasswordBytes then (Err(MsgPasswordTooShort), users)
    else
      match FindByEmail(users.rows, email)
      case None => (Err(MsgUserNotFound), users)
      case Some(i) =>
        if queryFault then (Err(MsgUserNotFound), users)
        else
          match bc.generate(newPassword, ResetCost, salt)
          case None => (Err(MsgProcessPassword), users)
          case Some(hash) =>
            if updateFault then (Err(MsgUpdatePassword), users)
            else (Ok(()), SetPasswordHash(users, users.rows[i].id, hash))
  }

  /** The unsynchronised global `passwordResetStore`. */
  class ResetStore {
    var entries: ResetMap

    ghost predicate Valid()
      reads this
    {
      KeyedByEmail(entries)
    }

    constructor()
      ensures Valid() && entries == map[]
    {
      entries := map[];
    }

    /** RequestPasswordReset. `queryFault` is a failing SELECT other than
        "no rows", `random` the entropy source, `mailSent` whether SMTP
        accepted the message. */
    method RequestPasswordReset(email: string, users: UserTable, queryFault: bool,
                                random: Option<Bytes32>, mailSent: bool, now: int)
      returns (r: Result<()>)
      requires Valid()
      modifies this
      ensures Valid()
      ensures queryFault ==> r == Err(MsgResetProcess) && entries == old(entries)
      ensures !queryFault && !EmailTaken(users, email) ==> r == Ok(()) && entries == old(entries)
      ensures !queryFault && EmailTaken(users, email) && random.None? ==>
        r == Err(MsgResetToken) && entries == old(entries)
      ensures !queryFault && EmailTaken(users, email) && random.Some? && !mailSent ==>
        r == Err(MsgResetMail) && entries == old(entries) - {email}
      ensures !queryFault && EmailTaken(users, email) && random.Some? && mailSent ==>
        && r == Ok(())
        && entries == old(entries)[email := ResetEntry(GenerateSecureToken(random).value, email, now + ResetTtl)]
    {
      if queryFault {
        return Err(MsgResetProcess);
      }
      if FindByEmail(users.rows, email).None? {
        return Ok(());
      }
      var token := GenerateSecureToken(random);
      if token.Err? {
        return Err(MsgResetToken);
      }
      entries := entries[email := ResetEntry(token.value, email, now + ResetTtl)];
      if !mailSent {
        entries := entries - {email};
        return Err(MsgResetMail);
      }
      return Ok(());
    }

    /** ValidateResetToken: a scan of the map in an unspecified order. A hit
        that has expired is deleted. */
    method ValidateResetToken(token: string, now: int) returns (r: Result<string>)
      requires Valid()
      modifies this
      ensures Valid()
      ensures r.Ok? || r.msg == MsgResetExpired || r.msg == MsgResetInvalid
      ensures r.Ok? ==> Resolves(old(entries), token, now, r.value) && entries == old(entries)
      ensures r.Err? && r.msg == MsgResetExpired ==>
        exists k :: Matches(old(entries), token, k) && now > old(entries)[k].expiresAt
                 && entries == old(entries) - {k}
      ensures r.Err? && r.msg == MsgResetInvalid ==>
        (forall k :: !Matches(old(entries), token, k)) && entries == old(entries)
      ensures (forall k :: !Matches(old(entries), token, k)) ==> r == Err(MsgResetInvalid)
      ensures TokensUnique(old(entries)) ==> forall e :: Resolves(old(entries), token, now, e) ==> r == Ok(e)
      ensures TokensUnique(old(entries)) ==>
        forall k :: Matches(old(entries), token, k) && now > old(entries)[k].expiresAt ==> r == Err(MsgResetExpired)
    {
      var remaining := entries.Keys;
      while remaining != {}
        invariant remaining <= entries.Keys
        invariant entries == old(entries)
        invariant forall k :: k in entries && k !in remaining ==> !Matches(entries, token, k)
        decreases remaining
      {
        var email :| email in remaining;
        var data := entries[email];
        if data.token == token {
          assert Matches(old(entries), token, email);
          if now > data.expiresAt {
            entries := entries - {email};
            return Err(MsgResetExpired);
          }
          return Ok(email);
        }
        remaining := remaining - {email};
      }
      return Err(MsgResetInvalid);
    }

    /** ResetPassword: the entry is deleted only once the new hash is stored;
        every failure after the token check leaves the store as it was. */
    method ResetPassword(token: string, newPassword: string, users: UserTable, queryFault: bool,
                         bc: Bcrypt, salt: nat, updateFault: bool, now: int)
      returns (r: Result<()>, users': UserTable)
      requires Valid()
      modifies this
      ensures Valid()
      ensures r.Err? ==> users' == users
      ensures r.Err? && r.msg != MsgResetExpired ==> entries == old(entries)
      ensures r.Err? && r.msg == MsgResetExpired ==>
        exists k :: Matches(old(entries), token, k) && now > old(entries)[k].expiresAt
                 && entries == old(entries) - {k}
      ensures r.Ok? ==>
        && Utf8Len(newPassword) >= MinPasswordBytes && !queryFault && !updateFault
        && exists e :: && Resolves(old(entries), token, now, e)
                       && entries == old(entries) - {e}
                       && FindByEmail(users.rows, e).Some?
                       && bc.generate(newPassword, ResetCost, salt).Some?
                       && users' == SetPasswordHash(users, users.rows[FindByEmail(users.rows, e).value].id,
                                                    bc.generate(newPassword, ResetCost, salt).value)
      ensures r.Ok? && TokensUnique(old(entries)) ==> forall k :: !Matches(entries, token, k)
      ensures (forall k :: !Matches(old(entries), token, k)) ==> r == Err(MsgResetInvalid)
      ensures TokensUnique(old(entries)) ==>
        forall k :: Matches(old(entries), token, k) && now > old(entries)[k].expiresAt ==> r == Err(MsgResetExpired)
      ensures TokensUnique(old(entries)) ==>
        forall e :: Resolves(old(entries), token, now, e) ==>
          (r, users') == ResetOutcome(e, newPassword, users, queryFault, bc, salt, updateFault)
      ensures r != Err(MsgResetInvalid) && r != Err(MsgResetExpired) ==>
        exists e :: Resolves(old(entries), token, now, e) &&
          (r, users') == ResetOutcome(e, newPassword, users, queryFault, bc, salt, updateFault)
    {
      var v := ValidateResetToken(token, now);
      if v.Err? {
        return Err(v.msg), users;
      }
      var email := v.value;
      if Utf8Len(newPassword) < MinPasswordBytes {
        return Err(MsgPasswordTooShort), users;
      }
      var found := FindByEmail(users.rows, email);
      if queryFault || found.None? {
        return Err(MsgUserNotFound), users;
      }
      var hashed := bc.generate(newPassword, ResetCost, salt);
      if hashed.None? {
        return Err(MsgProcessPassword), users;
      }
      if updateFault {
        return Err(MsgUpdatePassword), users;
      }
      var before := entries;
      entries := entries - {email};
      if TokensUnique(before) {
        RemovalRetiresToken(before, email, entries);
      }
      return Ok(()), SetPasswordHash(users, users.rows[found.value].id, hashed.value);
    }
  }
}
