# tunetudo: a verified model of the decision logic

tunetudo is a music-streaming backend written in Go on the Fiber framework. It
serves accounts, sessions, password resets, playlists, an admin catalogue,
personal uploads, playback and search over a SQLite database. Most of the
program is wiring, SQL and file I/O. This project models the parts that make
decisions or hold state. It then proves what those parts promise.

- **Auth.** The users table keeps its UNIQUE(username) and UNIQUE(email)
  constraints. The module covers registration with the 8-byte password policy,
  login with one failure message for every cause, and the session token's
  claims and 7-day expiry. The process-wide password-reset store is a class
  with a map keyed by e-mail. The clock is a parameter.
- **Middleware.** The Bearer gate, the admin gate and the context accessors.
- **Security.** The sensitive-endpoint test, suspicious-pattern detection, the
  request-validator ladder, the error handler's status-to-message table, and
  the security logger's choice of records.
- **Logger.** `HashIdentifier`, `MaskIP`, `RemoveCarriageReturns`,
  `sanitizeResourcePath`, the redacting `Error` line, and the
  security-event builders.
- **AppErrors.** The error taxonomy: constructors with fixed code, status and
  message; `WrapError`; `IsAppError`/`GetAppError`.
- **Config.** `getEnv`, the `LoadConfig` defaults and the case-insensitive
  extension allow-lists.
- **Controllers.** The handlers' validation ladders and the replies they
  choose: register, login, forgot/validate/reset password, recent songs,
  search, and songs by category.
- **Playlists.** A class over the playlists and playlist_songs tables,
  with the UNIQUE(user_id, name) and UNIQUE(playlist_id, song_id)
  constraints, ownership checks, queue-number assignment and the
  "nothing deleted" errors.
- **Catalog.** The admin and user upload ladders; get-or-create of artists and
  albums; `DeleteSong`; the profile image update. The artists, albums, songs and
  uploads tables form a class.
- **Playback and Search.** These are readers over the song rows:
  - a lookup by id;
  - stream authorisation;
  - the recent songs;
  - the three LIKE searches;
  - songs by category;
  - categories ordered by name.

  Each query is a filter, sort and take over the rows, followed by the Go
  loop that skips rows that do not scan.

Library calls are parameters of the model:
- bcrypt and the JWT codec are records of functions, with a `Sound` predicate
  stating the round trip the code relies on;
- SHA-256 is a function from string to digest;
- `crypto/rand` is an optional 32-byte value;
- SMTP is a flag saying whether the mail was sent;
- `os.Stat` is a function from path to outcome;
- each failing SQL statement is a fault flag.

Supporting modules:
- `Strs` models the Go string functions the code calls: `strings.Split` and
  `Join`, `Contains`, `HasPrefix`/`HasSuffix`, ASCII `ToLower`, byte length,
  `strconv.Atoi`/`Itoa` and `filepath.Ext`.
- `Paths` models `filepath.Clean` and the two-element `filepath.Join`.
- `Rows` models the song tables and row scanning.
- `Crypto` models the library records and the base64url token encoding of
  section 5 of RFC 4648.

The model follows the code as written:
- There is no mutex around the reset store.
- A login for an unknown account fails at once, without hashing a dummy
  password first.
- A duplicate registration gets status 400.
- The reset store is keyed by e-mail, so a second reset request makes the
  first token unresolvable.
- The admin upload checks extensions case-sensitively, although the
  configured allow-list ignores case.

## Model

| member | source | states |
|---|---|---|
| Auth.CheckPasswordPolicy | tunetudo/services/auth_service.go:377-383 | succeeds exactly when the password is at least 8 bytes long (UTF-8), otherwise the fixed "at least 8 characters" error |
| Auth.PasswordPolicyExamples | tunetudo/services/auth_service_test.go:283-325 | "12345678" passes; "1234567" and "" are rejected |
| Auth.FindByEmail | tunetudo/services/auth_service.go:101-108 | finds a row with that e-mail; none exactly when no row has it |
| Auth.RegisterUser | tunetudo/services/auth_service.go:209-248 | a password under 8 bytes is rejected before bcrypt and the table; a bcrypt failure gives "failed to process registration"; a taken username or e-mail, or any other INSERT error, gives "username or email already exists" with the table unchanged; a success returns a non-admin user with the next id and appends its row, whose bcrypt hash verifies against the password, keeping both UNIQUE constraints |
| Auth.DuplicatesLookAlike | tunetudo/services/auth_service.go:224-242 | a duplicate username and a duplicate e-mail produce the identical result |
| Auth.TokenClaims | tunetudo/services/auth_service.go:304-311 | the claims are exactly user_id, username, is_admin, iat = now and exp = now + 7 days |
| Auth.GenerateToken | tunetudo/services/auth_service.go:304-320 | fails exactly when signing fails; with a sound codec the token decodes to HS256 and those claims |
| Auth.ValidateToken | tunetudo/services/auth_service.go:323-352 | Ok(claims) exactly when the token parses, uses an HMAC method, verifies under the secret and is not past a numeric exp; a token that does not parse, uses another method or fails verification gives "invalid or expired token"; a verified token past exp gives "token has expired" |
| Auth.TokenRoundTrip | tunetudo/services/auth_service.go:304-352 | a freshly issued token validates to its own claims until exp |
| Auth.TokenExpires | tunetudo/services/auth_service.go:339-346 | after exp the same token is rejected as expired |
| Auth.FindLogin | tunetudo/services/auth_service.go:256-261 | the first row whose username or e-mail equals the identifier; none exactly when no row matches |
| Auth.TouchLastLogin | tunetudo/services/auth_service.go:282-286 | only the logged-in row's last_login changes, and the table invariant is kept |
| Auth.LoginUser | tunetudo/services/auth_service.go:252-301 | an unknown account, a failing query and a wrong password all give "authorization failed" with the table unchanged; a signing failure gives "failed to generate authentication token"; a success returns the matching row's user and a token signed for it |
| Auth.LoginIgnoresUpdateFault | tunetudo/services/auth_service.go:282-286 | a failing last-login update does not change the login result |
| Auth.RegisterThenLogin | tunetudo/services/auth_service.go:209-301 | a user who just registered can log in with the same password and receives a token for the new row |
| Auth.ReRequestRetiresOldToken | tunetudo/services/auth_service.go:122-128 | overwriting an e-mail's entry makes its previous token resolve to no e-mail |
| Auth.RemovalRetiresToken | tunetudo/services/auth_service.go:135 | deleting an e-mail's entry makes its token match nothing |
| Auth.SetPasswordHash | tunetudo/services/auth_service.go:192-193 | only the row with that id gets the new hash |
| Auth.ResetOutcome | tunetudo/services/auth_service.go:169-199 | Ok exactly when the password has at least 8 bytes, the user is found, bcrypt succeeds and the UPDATE succeeds; otherwise "password must be at least 8 characters", "user not found", "failed to process password" or "failed to update password", in that order, with the users table unchanged; on success only that user's hash changes |
| Auth.ResetStore.constructor | tunetudo/services/auth_service.go:38 | the store starts empty and keyed by e-mail |
| Auth.ResetStore.RequestPasswordReset | tunetudo/services/auth_service.go:98-140 | an unknown e-mail succeeds with the store unchanged; a query or token failure errors with the store unchanged; a mail failure removes the e-mail's entry; a success maps the e-mail to a fresh token expiring 15 minutes later; every key stays the entry's own e-mail |
| Auth.ResetStore.ValidateResetToken | tunetudo/services/auth_service.go:143-159 | a live match returns its e-mail and keeps the store; an expired match is deleted and errors "reset token has expired"; no match errors "invalid reset token" and keeps the store; with unique tokens a resolving e-mail is exactly the one returned |
| Auth.ResetStore.ResetPassword | tunetudo/services/auth_service.go:162-206 | no match gives "invalid reset token" and an expired match "reset token has expired"; once the token resolves to an e-mail the answer and the users table are ResetOutcome for it, so success holds exactly when every step passes; the entry is deleted only after the new hash is stored, every other failure keeps the store, and afterwards the same token matches nothing |
| Middleware.BearerToken | tunetudo/middleware/middleware.go:27-35 | a header is accepted only as "Bearer " followed by a token without spaces |
| Middleware.BearerAccepts | tunetudo/middleware/middleware.go:27-35 | every "Bearer " header whose token has no space is accepted with that token |
| Middleware.AuthMiddleware | tunetudo/middleware/middleware.go:13-71 | an empty header gives 401 "Authentication required"; a bad format 401 "Invalid authorization format"; a failed validation 401 "Invalid or expired token"; a missing or non-numeric user_id 401 "Invalid token"; it continues exactly when the token validates with a numeric user_id, with user_id truncated, username defaulting to "" and is_admin to false |
| Middleware.AuthDenialReason | tunetudo/middleware/middleware.go:19-54 | the logged reason is the reply message, except "No authorization token provided" for a missing header and "Invalid token claims" for bad claims |
| Middleware.AuthGateLog | tunetudo/middleware/middleware.go:17-59 | an ACCESS_DENIED record for "anonymous" exactly when the gate rejects, with the reason of each rejection; nothing when it continues |
| Middleware.SessionPassesGate | tunetudo/middleware/middleware.go:13-71 | a fresh session token passes the gate with the user's id, name and admin flag |
| Middleware.AdminMiddleware | tunetudo/middleware/middleware.go:74-99 | continues exactly when is_admin is present and true, otherwise 403 "Admin access required" |
| Middleware.AdminGateLog | tunetudo/middleware/middleware.go:76-97 | a rejection logs ACCESS_DENIED for the context user name, or "anonymous" without one; a pass logs ADMIN_ACTION with method and path when a user name is set, and nothing otherwise |
| Middleware.AdminGateNamesUser | tunetudo/middleware/middleware.go:62-97 | behind the token gate the admin gate always logs, under the hash of the token's user name |
| Middleware.GetUserID | tunetudo/middleware/middleware.go:102-113 | a present user_id is returned with nothing written or logged; an absent one returns 0 with a nil error, after writing 401 "Authentication required" and logging ACCESS_DENIED for "anonymous" with the reason "User ID not found in context" |
| Middleware.GetUsername | tunetudo/middleware/middleware.go:116-122 | fails exactly when username is absent, otherwise returns it |
| Middleware.IsAdmin | tunetudo/middleware/middleware.go:125-128 | true exactly when the admin gate lets the request through, that is when is_admin is present and true |
| Middleware.GatesCompose | tunetudo/middleware/middleware.go:74-128 | after the Bearer gate GetUserID returns the token's user id and writes no reply, and the admin gate and IsAdmin agree with the token's is_admin claim |
| Security.AnyPrefix | tunetudo/middleware/security.go:64-80 | true exactly when some listed prefix starts the path |
| Security.IsSensitiveEndpoint | tunetudo/middleware/security.go:64-80 | true exactly when the path starts with "/api/auth/", "/api/user/", "/api/admin/", "/api/profile", "/api/upload" or "/api/playlists" |
| Security.SensitiveBelowPrefix | tunetudo/middleware/security.go:64-80 | every path below one of the six sensitive prefixes is sensitive |
| Security.AnyLoweredIn | tunetudo/middleware/security.go:199-223 | true exactly when the input contains some lowercased pattern |
| Security.ContainsSuspiciousPattern | tunetudo/middleware/security.go:199-223 | true exactly when the lowercased input contains the lowercased form of some listed pattern |
| Security.SuspiciousInAnyCase | tunetudo/middleware/security.go:199-223 | any case variant of a listed pattern, anywhere in the input, is detected |
| Security.CheckQueryValue | tunetudo/middleware/security.go:160-179 | after CR/LF removal, a suspicious value gives 400 "Invalid input detected", checked before length; a value over 1000 bytes gives 400 "Input exceeds maximum length"; otherwise it passes |
| Security.CheckQueryValueIgnoresLineBreaks | tunetudo/middleware/security.go:162-166 | adding or removing CR and LF never changes the verdict |
| Security.QueryVerdicts | tunetudo/middleware/security.go:159-180 | one verdict per query value, in iteration order, each the verdict of that value |
| Security.FirstRejected | tunetudo/middleware/security.go:160-180 | the position of the first blocked verdict in iteration order, with every earlier one passing; none exactly when every verdict passes |
| Security.RequestValidator | tunetudo/middleware/security.go:150-195 | passes exactly when every value passes and the body is within 50 MiB or the path contains "/upload"; otherwise the first rejected value's verdict, or 413 |
| Security.FiberReply | tunetudo/middleware/security.go:89-115 | keeps the status and chooses its fixed code and message |
| Security.ErrorHandler | tunetudo/middleware/security.go:83-137 | a non-Fiber error gives 500 INTERNAL_ERROR "An internal error occurred"; a Fiber error keeps its status; the message is always one of the fixed safe messages |
| Security.ErrorHandlerIgnoresText | tunetudo/middleware/security.go:123-136 | the reply never depends on the error's own text |
| Security.ErrorHandlerCodes | tunetudo/middleware/security.go:93-114 | 400, 401, 403, 404, 409 and 429 get their own code; any other Fiber status gets "An error occurred" with INTERNAL_ERROR |
| Security.DenialReason | tunetudo/middleware/security.go:45-56 | a reason exists exactly for 401 ("Authentication required") and 403 ("Insufficient permissions") |
| Security.SecurityLogger | tunetudo/middleware/security.go:12-61 | returns the downstream error unchanged; logs DATA_ACCESS with "METHOD path" exactly for sensitive paths, the redacted "Request error occurred" line exactly when there was an error, and ACCESS_DENIED with the status's reason exactly for 401 and 403, each under the context user name or "anonymous" |
| Logger.Hex | tunetudo/logger/logger.go:89 | two lowercase hex digits per byte |
| Logger.HexAppend | tunetudo/logger/logger.go:89 | hex encoding distributes over concatenation |
| Logger.HexPrefix | tunetudo/logger/logger.go:89 | the first 2k hex digits encode the first k bytes |
| Logger.HashIdentifier | tunetudo/logger/logger.go:84-90 | "" and "anonymous" give "anonymous"; anything else gives "user_" and 8 hex digits, 13 characters, from the first 4 digest bytes |
| Logger.HashIdentifierShape | tunetudo/logger/logger.go:84-90 | a real identifier never hashes to "anonymous"; equal digest prefixes give equal hashes |
| Logger.MaskIP | tunetudo/logger/logger.go:93-104 | "" gives "unknown"; four dot-separated parts give the first two followed by ".x.x"; anything else gives "ip_present" |
| Logger.MaskIPFourParts | tunetudo/logger/logger.go:93-104 | a masked address keeps only its first two parts, addresses sharing them mask alike, and masking is idempotent |
| Logger.RemoveCarriageReturns | tunetudo/logger/logger.go:107-112 | the result has no CR and no LF and is no longer than the input |
| Logger.RemoveCarriageReturnsIsKeepPrintable | tunetudo/logger/logger.go:107-112 | the three ReplaceAll calls remove exactly every CR and LF |
| Logger.RemoveCarriageReturnsIdempotent | tunetudo/logger/logger.go:107-112 | applying it twice equals applying it once |
| Logger.SanitizeResourcePath | tunetudo/logger/logger.go:241-254 | a path of more than three "/"-parts becomes the first three joined by "/" plus "/*"; any other path is unchanged |
| Logger.SanitizeResourcePathShape | tunetudo/logger/logger.go:241-249 | the sanitised path splits into the first three parts and "*" |
| Logger.SanitizeResourcePathIdempotent | tunetudo/logger/logger.go:241-249 | applying it twice equals applying it once |
| Logger.ErrorLineRedacts | tunetudo/logger/logger.go:134-145 | the error line is the same for every error and only adds ": error occurred" |
| Logger.Security | tunetudo/logger/logger.go:156-165 | the details are free of CR and LF; type, hash and IP are kept |
| Logger.AuthAttempt | tunetudo/logger/logger.go:168-179 | "AUTH_SUCCESS" exactly on success, "AUTH_FAILED" otherwise; the user is hashed and the IP masked |
| Logger.AccessDenied | tunetudo/logger/logger.go:182-191 | an "ACCESS_DENIED" event with hashed user, masked IP and line-break-free details |
| Logger.AdminAction | tunetudo/logger/logger.go:194-202 | an "ADMIN_ACTION" event with hashed user, masked IP and line-break-free details |
| Logger.ValidationFailure | tunetudo/logger/logger.go:205-214 | a "VALIDATION_FAILURE" event with hashed user, masked IP and line-break-free details |
| Logger.DataAccess | tunetudo/logger/logger.go:217-223 | a "DATA_ACCESS" event with hashed user, masked IP and line-break-free details |
| Logger.SessionCreated | tunetudo/logger/logger.go:226-231 | a "SESSION_CREATED" event with hashed user, masked IP and the fixed details |
| Logger.SessionExpired | tunetudo/logger/logger.go:234-238 | a "SESSION_EXPIRED" event with hashed user and the IP field "system" |
| AppErrors.NewAppError | tunetudo/errors/errors.go:35-42 | Error() is the message; code and status agreeing with the taxonomy make a well-formed error |
| AppErrors.ValidationError | tunetudo/errors/errors.go:46-52 | 400 VALIDATION_ERROR with the given message, keeping the internal error |
| AppErrors.AuthError | tunetudo/errors/errors.go:54-61 | 401 AUTH_ERROR "Authorization failed" whatever message is passed |
| AppErrors.NotFoundError | tunetudo/errors/errors.go:63-65 | 404 NOT_FOUND with the given message |
| AppErrors.UnauthorizedError | tunetudo/errors/errors.go:67-69 | 401 "Authorization required", ignoring the argument |
| AppErrors.ForbiddenError | tunetudo/errors/errors.go:71-73 | 403 "Access forbidden", ignoring the argument |
| AppErrors.InternalError | tunetudo/errors/errors.go:75-87 | 500 INTERNAL_ERROR with the fixed generic message, keeping the wrapped error |
| AppErrors.BadRequestError | tunetudo/errors/errors.go:89-91 | 400 BAD_REQUEST with the given message |
| AppErrors.ConflictError | tunetudo/errors/errors.go:93-95 | 409 CONFLICT with the given message |
| AppErrors.RateLimitError | tunetudo/errors/errors.go:97-104 | 429 with the code RATE_LIMIT and the fixed message |
| AppErrors.ErrorHidesInternal | tunetudo/errors/errors.go:16-19 | Error() is the message and never depends on the internal error |
| AppErrors.FixedMessagesIgnoreArgument | tunetudo/errors/errors.go:54-73 | AuthError, UnauthorizedError and ForbiddenError give the same error for every message |
| AppErrors.GetAppError | tunetudo/errors/errors.go:121-133 | gives an error exactly when IsAppError holds |
| AppErrors.WrapError | tunetudo/errors/errors.go:107-118 | nil gives nil; an AppError in the chain gives itself; any other error gives InternalError around it |
| AppErrors.WrapErrorIdempotent | tunetudo/errors/errors.go:107-118 | wrapping a wrapped error changes nothing |
| AppErrors.AsAppThroughWraps | tunetudo/errors/errors.go:121-133 | an AppError is still found through any number of fmt.Errorf-style wraps |
| Config.GetEnv | tunetudo/config/config.go:34-39 | the environment value when present and non-empty, otherwise the default |
| Config.LoadConfig | tunetudo/config/config.go:20-32 | port, database path, JWT secret, TLS key and certificate files and storage path are each GetEnv of their variable with the source's default; maximum upload 50 MiB and the fixed audio and image allow-lists |
| Config.LoadConfigDefaults | tunetudo/config/config.go:20-32 | with nothing set: port "2701", database "./tunetudo.db", storage "./storage", the default JWT secret and TLS files |
| Config.AnySuffix | tunetudo/config/config.go:41-57 | true exactly when some listed extension ends the name |
| Config.IsAllowedAudioType | tunetudo/config/config.go:41-48 | true exactly when the lowercased name ends with one of the configured audio extensions |
| Config.IsAllowedImageType | tunetudo/config/config.go:50-57 | true exactly when the lowercased name ends with one of the configured image extensions |
| Config.AudioTypeSpec | tunetudo/config/config.go:41-48 | allowed exactly when the lowercased name ends with ".mp4", ".wav" or ".mp3" |
| Config.ImageTypeSpec | tunetudo/config/config.go:50-57 | allowed exactly when the lowercased name ends with ".jpg", ".jpeg" or ".png" |
| Config.AllowListsCaseInsensitive | tunetudo/config/config.go:43-52 | the answer for a name equals the answer for its lowercase form |
| Config.UpperCaseAudioAccepted | tunetudo/config/config.go:41-48 | "SONG.MP3" is an allowed audio name |
| Crypto.Trunc | tunetudo/middleware/middleware.go:51-65 | int(f) truncates toward zero |
| Crypto.TruncWhole | tunetudo/middleware/middleware.go:51-65 | a whole number survives the float round trip of the user_id claim |
| Crypto.Base64UrlEncode | tunetudo/services/auth_service.go:41-47 | four URL-safe characters per three bytes, padded |
| Crypto.GenerateSecureToken | tunetudo/services/auth_service.go:41-47 | fails exactly when the random source fails; otherwise 44 URL-safe characters |
| Controllers.EmailLengthInBytes | tunetudo/controllers/controllers.go:775-781 | the length bounds count bytes: "é@." is valid, "a@." is not |
| Controllers.IsValidEmail | tunetudo/controllers/controllers.go:775-781 | valid exactly when the address is more than 3 and fewer than 255 bytes long and contains both "@" and "." |
| Controllers.Register | tunetudo/controllers/controllers.go:22-49 | an unparsable body gives 400 "invalid request data"; any service error gives 400 with its message; a success gives 201 with the user |
| Controllers.DuplicateRegistrationIs400 | tunetudo/controllers/controllers.go:35-42 | a taken username gets 400 "username or email already exists", not 409 |
| Controllers.Login | tunetudo/controllers/controllers.go:51-80 | an unparsable body gives 400; any service error gives 401 with its message; a success gives 200 with token and user |
| Controllers.FailedLoginsLookAlike | tunetudo/controllers/controllers.go:63-70 | an unknown account and a wrong password get the identical reply |
| Controllers.ForgotPasswordReply | tunetudo/controllers/controllers.go:662-693 | an unparsable body gives 400 "Invalid request format"; an invalid e-mail 400 "Valid email address is required"; every valid e-mail the same 200 message |
| Controllers.ForgotPasswordNoEnumeration | tunetudo/controllers/controllers.go:682-692 | any two valid e-mails get the identical reply, whatever the service did |
| Controllers.ForgotPassword | tunetudo/controllers/controllers.go:662-693 | the reply is ForgotPasswordReply whatever the service does; a missing body or an invalid e-mail leaves the store unchanged; a valid e-mail always reaches RequestPasswordReset, so the store is unchanged on a query fault, an unknown e-mail or a failed token, loses that e-mail's entry when the mail fails, and otherwise holds a fresh 15-minute entry for it; no entry under any other e-mail changes |
| Controllers.ResetTokenReply | tunetudo/controllers/controllers.go:706-717 | every service error, expired or unknown, becomes 400 "Invalid or expired reset token"; a success returns the e-mail |
| Controllers.ValidateResetToken | tunetudo/controllers/controllers.go:696-718 | an empty token gives 400 "Reset token is required" without touching the store; otherwise the service's result through ResetTokenReply |
| Controllers.ResetPasswordPrecheck | tunetudo/controllers/controllers.go:735-757 | passes exactly when all fields are set, the passwords match and are at least 8 bytes long, with the errors in that order |
| Controllers.PrecheckCoversServicePolicy | tunetudo/controllers/controllers.go:752-757 | after the handler's length check the service never answers "password must be at least 8 characters" |
| Controllers.ResetPasswordReply | tunetudo/controllers/controllers.go:759-771 | a service error is 400 with the service's own message; success is 200 with "Password reset successful. Please login with your new password."; 200 exactly on success |
| Controllers.ResetPassword | tunetudo/controllers/controllers.go:721-772 | an unparsable body or a failed precheck answers 400 without calling the service; after the precheck, no match gives 400 "invalid reset token", an expired match 400 "reset token has expired", and a resolving token gives ResetPasswordReply of ResetOutcome with its users table |
| Controllers.RecentLimit | tunetudo/controllers/controllers.go:459-464 | 20 unless the parameter parses as an integer, then that integer |
| Controllers.RecentLimitOfNumber | tunetudo/controllers/controllers.go:459-464 | a printed integer is read back as itself, and the service then uses it, or 20 when it is not positive |
| Controllers.GetRecentSongs | tunetudo/controllers/controllers.go:458-478 | a service error gives 500 "failed to fetch songs"; otherwise 200 with the recent songs for the parsed limit |
| Controllers.SearchHandler | tunetudo/controllers/controllers.go:125-148 | an empty query gives 400 "search query required"; any other query gives 200 with the service's result |
| Controllers.GetSongsByCategory | tunetudo/controllers/controllers.go:166-196 | a non-integer id gives 400 "invalid category ID"; a service error 500; an empty result "no tracks available" with empty data; otherwise the songs |
| Playlists.OwnerOf | tunetudo/services/playlist_service.go:143-144 | the owner of a playlist with that id; none exactly when there is none |
| Playlists.OwnerOfUnique | tunetudo/services/playlist_service.go:143-144 | with ids in insertion order, the owner found is that playlist's own |
| Playlists.CreatedIsOwned | tunetudo/services/playlist_service.go:23-40 | a new playlist is owned by its creator |
| Playlists.MaxQueue | tunetudo/services/playlist_service.go:164-168 | the largest queue number of that playlist; none exactly when it is empty |
| Playlists.NextQueue | tunetudo/services/playlist_service.go:170-173 | larger than every queue number of that playlist, or 0 when it is empty or the MAX query failed |
| Playlists.AppendKeepsInvariants | tunetudo/services/playlist_service.go:163-179 | appending with the next queue number keeps ids ordered, pairs unique and queue numbers increasing |
| Playlists.IgnoredMaxErrorRepeatsQueueNumber | tunetudo/services/playlist_service.go:164-173 | an ignored MAX error can repeat queue number 0 in a non-empty playlist |
| Playlists.WithoutPair | tunetudo/services/playlist_service.go:196-207 | removes exactly that (playlist, song) pair; the length stays exactly when the pair was absent |
| Playlists.WithoutPairKeepsQueueOrder | tunetudo/services/playlist_service.go:196-199 | removal keeps queue numbers increasing |
| Playlists.WithoutPairKeepsIds | tunetudo/services/playlist_service.go:196-199 | removal keeps entry ids ordered |
| Playlists.WithoutPairKeepsPairs | tunetudo/services/playlist_service.go:196-199 | removal keeps pairs unique |
| Playlists.WithoutAbsentPair | tunetudo/services/playlist_service.go:204-207 | removing an absent pair changes nothing |
| Playlists.AddThenRemove | tunetudo/services/playlist_service.go:141-210 | removing the entry just added restores the table |
| Playlists.WithoutPlaylist | tunetudo/services/playlist_service.go:214-225 | removes exactly the playlist with that id and owner; the length stays exactly when there was none |
| Playlists.DeletedIsGone | tunetudo/services/playlist_service.go:213-228 | afterwards the user owns no playlist with that id |
| Playlists.WithoutPlaylistKeepsIds | tunetudo/services/playlist_service.go:214-217 | deletion keeps ids ordered |
| Playlists.WithoutPlaylistKeepsNames | tunetudo/services/playlist_service.go:214-217 | deletion keeps (user, name) unique |
| Playlists.CountSongs | tunetudo/services/playlist_service.go:47-51 | COUNT(ps.id): zero exactly when the playlist has no entry |
| Playlists.UserPlaylists | tunetudo/services/playlist_service.go:44-74 | exactly the user's playlists, each with its song count |
| Playlists.UserPlaylistsNewestFirst | tunetudo/services/playlist_service.go:52 | the user's playlists come newest first |
| Playlists.PlaylistDb.constructor | tunetudo/database/database.go:75-94 | both tables start empty and valid |
| Playlists.PlaylistDb.CreatePlaylist | tunetudo/services/playlist_service.go:18-41 | an empty name gives "enter valid playlist name"; a taken (user, name) or failed insert gives "Playlist already exists"; both leave the tables unchanged; a success appends the playlist with the given owner and name |
| Playlists.PlaylistDb.GetPlaylistByID | tunetudo/services/playlist_service.go:77-93 | found exactly when both id and owner match, otherwise "no playlist found" |
| Playlists.PlaylistDb.MaxQueueNumber | tunetudo/services/playlist_service.go:164-168 | computes MaxQueue over the entries |
| Playlists.PlaylistDb.AddSong | tunetudo/services/playlist_service.go:141-182 | a missing playlist gives "no playlist found", another owner "unauthorized", a present song "Song already in the playlist", all with nothing changed; a success appends one entry with the next queue number |
| Playlists.PlaylistDb.RemoveSong | tunetudo/services/playlist_service.go:185-210 | the same ownership checks; an absent pair gives "song not found in playlist"; a success deletes only that pair |
| Playlists.PlaylistDb.DeletePlaylist | tunetudo/services/playlist_service.go:213-228 | deletes only a playlist whose id and owner match; otherwise "no playlist found" with nothing changed |
| Playlists.PlaylistDb.GetUserPlaylists | tunetudo/services/playlist_service.go:44-74 | a query error is returned; otherwise UserPlaylists of the tables |
| Catalog.Format | tunetudo/services/admin_service.go:131 | the extension without its leading dot |
| Catalog.CheckAdminUpload | tunetudo/services/admin_service.go:38-54 | missing title or artist first, then a case-sensitive ".mp4"/".wav"/".mp3" check, then the 50 MiB limit |
| Catalog.AdminExtensionIsCaseSensitive | tunetudo/services/admin_service.go:44-48 | "SONG.MP3" passes the configured allow-list but the admin upload refuses it |
| Catalog.FindDuplicate | tunetudo/services/admin_service.go:57-62 | a song with the same lowercased title whose artist has the same lowercased name; none exactly when there is none |
| Catalog.DuplicateFoundInAnyCase | tunetudo/services/admin_service.go:57-67 | a stored song differing only in case from the upload is detected |
| Catalog.AdminPrecheck | tunetudo/services/admin_service.go:38-67 | the field checks come first; a duplicate then gives the error naming the existing id; a failing duplicate query is not an error |
| Catalog.FindArtist | tunetudo/services/admin_service.go:162 | the first artist whose lowercased name equals the lowercased name asked for |
| Catalog.CaseVariantsShareArtist | tunetudo/services/admin_service.go:160-177 | once an artist is created, every case variant of its name finds it |
| Catalog.FindAlbum | tunetudo/services/admin_service.go:181-183 | the first album with that lowercased title and that artist |
| Catalog.FindExactArtist | tunetudo/services/user_service.go:137 | the first artist named exactly that |
| Catalog.WithoutSong | tunetudo/services/admin_service.go:238 | removes exactly the rows with that id |
| Catalog.WithoutSongKeepsOrder | tunetudo/services/admin_service.go:238 | deletion keeps song ids in insertion order |
| Catalog.UploadTitle | tunetudo/services/user_service.go:133 | the title is the filename without its extension |
| Catalog.ProfilePathParts | tunetudo/services/user_service.go:69 | the profile path has exactly the elements images, profiles, the id and the stored name |
| Catalog.SetProfileImage | tunetudo/services/user_service.go:70-73 | only the user's own row gets the path |
| Catalog.UploadProfileImage | tunetudo/services/user_service.go:29-76 | size over 5 MiB first, then a case-sensitive ".jpg"/".jpeg"/".png" check; a failure leaves the users unchanged; a success writes images/profiles/<id>/<uuid><ext> to that user's row only |
| Catalog.Library.constructor | tunetudo/database/database.go:36-73 | the tables start empty with the given categories |
| Catalog.Library.GetOrCreateArtist | tunetudo/services/admin_service.go:160-177 | a case-insensitive match returns its id with the table unchanged; otherwise a new artist is appended with the next id, or the insert error is returned; earlier rows always stay and at most one is added |
| Catalog.Library.GetOrCreateAlbum | tunetudo/services/admin_service.go:179-198 | the same rule keyed on lowercased title and artist id, with the same prefix-and-one-row bound on the albums table |
| Catalog.Library.InsertSong | tunetudo/services/admin_service.go:128-140 | appends the song with the next id |
| Catalog.Library.ResolveArtistAndAlbum | tunetudo/services/admin_service.go:70-85 | an artist error aborts with the tables unchanged; an album error is swallowed and leaves the album unset; otherwise a non-empty title yields the matching or new album of that artist; earlier artists and albums stay, with at most one of each added |
| Catalog.Library.AdminUploadSong | tunetudo/services/admin_service.go:30-158 | a precheck failure changes nothing; after it, an artist failure gives the database error, a failed file write the I/O error and a failed INSERT the database error, and success holds exactly when none of these happens; a success inserts one song with the next id, the title, the named artist, the album of that artist when the title is set and its lookup or insert did not fail, category only when positive, path media/songs/<uuid><ext> and format without the dot; earlier artists and albums stay, with at most one of each added |
| Catalog.Library.DeleteSong | tunetudo/services/admin_service.go:222-261 | an unknown id or a failing query gives "song not found"; a failing DELETE is returned; a success removes exactly that song, whatever happens to the file |
| Catalog.Library.PlaceholderArtist | tunetudo/services/user_service.go:136-143 | reuses "Unknown Artist" when present, otherwise appends it |
| Catalog.Library.UserUploadSong | tunetudo/services/user_service.go:79-160 | size over 50 MiB first, then the case-sensitive audio check; a success records the upload and returns it echoing user, filename, size and media/uploads/<id>/<uuid><ext>; the song row takes the next id and carries the derived title, format, uploader and the "Unknown Artist" id, and its insert error is ignored; earlier artists stay, with at most the placeholder added |
| Rows.ArtistNameOf | tunetudo/services/playback_service.go:34 | the LEFT JOIN name: present exactly when an artist with that id exists |
| Rows.AlbumTitleOf | tunetudo/services/playback_service.go:35 | the LEFT JOIN title: present exactly when an album with that id exists |
| Rows.CategoryNameOf | tunetudo/services/playback_service.go:36 | the LEFT JOIN name: present exactly when a category with that id exists |
| Rows.JoinedName | tunetudo/services/playback_service.go:34-36 | the LEFT JOIN lookup shared by the three: a name beside a row with that id, or NULL exactly when no row has it |
| Rows.ViewOf | tunetudo/services/playback_service.go:54-62 | keeps the song's id, title and path and attaches the joined artist name |
| Rows.Scanned | tunetudo/services/playback_service.go:117-135 | no more views than rows; exactly the views of the rows that scan, rows that do not scan being skipped; the order is stated by ScannedKeepsOrder |
| Rows.ScannedAll | tunetudo/services/playback_service.go:117-135 | when every row scans, none is lost |
| Rows.ScannedKeepsOrder | tunetudo/services/playback_service.go:106 | skipping rows keeps newest first |
| Rows.Catalogue | tunetudo/services/playback_service.go:105-106 | exactly the songs that are not personal uploads, newest first |
| Rows.CatalogueNewestFirst | tunetudo/services/playback_service.go:106 | the catalogue's ids strictly decrease |
| Rows.Take | tunetudo/services/playback_service.go:107 | LIMIT: the first n rows, or all of them |
| Rows.ScanRows | tunetudo/services/playback_service.go:116-135 | the scan loop computes Scanned |
| Playback.FindSong | tunetudo/services/playback_service.go:37 | the first row with that id; none exactly when there is none |
| Playback.FindStoredSong | tunetudo/services/playback_service.go:37 | a stored song is found by its own id |
| Playback.GetSongByID | tunetudo/services/playback_service.go:25-65 | a missing row, a failing query and an unscannable row all give "track not found"; the artist is attached exactly when the join finds it, album and category only when the id is set and the join finds it |
| Playback.StoredSongDescribed | tunetudo/services/playback_service.go:25-65 | every stored song that scans is found by its id |
| Playback.AuthorizeStream | tunetudo/services/playback_service.go:68-92 | "track not found" for a missing song, a failing query or a missing file; otherwise the storage path joined with file_path |
| Playback.AdminUploadStreamPath | tunetudo/services/playback_service.go:81 | an admin upload streams from <dir>/media/songs/<name> below "./<dir>" |
| Playback.StreamableButNotDescribed | tunetudo/services/playback_service.go:29-91 | a song with a NULL duration can be streamed but not described |
| Playback.EffectiveLimit | tunetudo/services/playback_service.go:96-98 | a limit of 0 or less becomes 20 |
| Playback.GetRecentSongs | tunetudo/services/playback_service.go:95-140 | a failing query is returned; otherwise the recent songs |
| Playback.RecentSongsSpec | tunetudo/services/playback_service.go:100-135 | at most the limit, none a personal upload, newest first |
| Playback.RecentSongs | tunetudo/services/playback_service.go:96-135 | no more songs than the effective limit (20 when the limit is not positive) |
| Playback.RecentSongsComplete | tunetudo/services/playback_service_test.go:114-158 | when all catalogue songs scan and fit the limit, all are returned |
| Search.MatchingSongs | tunetudo/services/search_service.go:58-63 | exactly the catalogue songs whose title, artist name or album title contains the term |
| Search.MatchingArtists | tunetudo/services/search_service.go:105-106 | exactly the artists whose lowercased name contains the term |
| Search.MatchingAlbums | tunetudo/services/search_service.go:132-134 | exactly the albums whose lowercased title or artist name contains the term |
| Search.TitleMatchInAnyCase | tunetudo/services/search_service.go:30-62 | a title containing any case variant of the query matches |
| Search.SearchSongs | tunetudo/services/search_service.go:53-100 | a failing query is returned; otherwise the song results |
| Search.SongResultsSpec | tunetudo/services/search_service.go:53-100 | at most 50, each a matching catalogue song that scans |
| Search.SongResults | tunetudo/services/search_service.go:53-100 | at most 50 songs |
| Search.SongResultsComplete | tunetudo/services/search_service.go:53-100 | with no more than 50 matches, every matching song that scans is returned |
| Search.SearchArtists | tunetudo/services/search_service.go:102-126 | a failing query is returned; otherwise the artist results |
| Search.ArtistResultsSpec | tunetudo/services/search_service.go:102-126 | at most 20, each a matching artist |
| Search.ScannedAlbums | tunetudo/services/search_service.go:143-161 | exactly the albums with an artist id, with the joined artist name |
| Search.SearchAlbums | tunetudo/services/search_service.go:128-164 | a failing query is returned; otherwise the album results |
| Search.AlbumResultsSpec | tunetudo/services/search_service.go:128-164 | at most 20, each a matching album with an artist |
| Search.FullTextSearch | tunetudo/services/search_service.go:18-51 | an empty query gives four empty lists; otherwise each list holds its sub-search's results for the lowercased query, or stays empty when that sub-search fails; playlists stay empty |
| Search.InCategoryRows | tunetudo/services/search_service.go:174 | exactly the rows of that category |
| Search.InCategoryKeepsOrder | tunetudo/services/search_service.go:175 | filtering keeps newest first |
| Search.GetSongsByCategory | tunetudo/services/search_service.go:167-206 | a failing query is returned; otherwise the category's songs |
| Search.CategorySongsSpec | tunetudo/services/search_service.go:167-206 | at most 100, each a catalogue song of that category that scans, newest first |
| Search.CategorySongs | tunetudo/services/search_service.go:167-206 | at most 100 songs |
| Search.NameLeTotal | tunetudo/services/search_service.go:210 | the name order is total |
| Search.NameLeTrans | tunetudo/services/search_service.go:210 | the name order is transitive |
| Search.NameLeAntisymmetric | tunetudo/services/search_service.go:210 | the name order is antisymmetric |
| Search.InsertByName | tunetudo/services/search_service.go:210 | inserting adds exactly that category |
| Search.SortByName | tunetudo/services/search_service.go:210 | ORDER BY name is a permutation of the table |
| Search.InsertByNameSorted | tunetudo/services/search_service.go:210 | inserting into a sorted list keeps it sorted |
| Search.SortByNameSorted | tunetudo/services/search_service.go:210 | the result is sorted by name |
| Search.GetAllCategories | tunetudo/services/search_service.go:209-227 | a failing query is returned; otherwise the categories ordered by name |
| Search.AllCategoriesSpec | tunetudo/services/search_service.go:209-227 | the categories are sorted by name and are exactly the table's rows |
| Strs.Lower | tunetudo/services/search_service.go:30 | strings.ToLower, ASCII letters only, character by character |
| Strs.LowerIdempotent | tunetudo/middleware/security.go:199-223 | lowercasing twice equals lowercasing once |
| Strs.Utf8Len | tunetudo/services/auth_service.go:211 | Go's len(): between one and four bytes per character |
| Strs.Split | tunetudo/logger/logger.go:97 | strings.Split: one part more than separators, none holding the separator |
| Strs.JoinSplit | tunetudo/logger/logger.go:243-246 | joining the parts of a split gives the string back |
| Strs.SplitJoin | tunetudo/logger/logger.go:243-246 | splitting a join of separator-free parts gives the parts back |
| Strs.Atoi | tunetudo/controllers/controllers.go:461 | strconv.Atoi: a value in the int64 range, from an optional sign and digits |
| Strs.AtoiItoa | tunetudo/controllers/controllers.go:461 | a printed int64 parses back to itself |
| Strs.Ext | tunetudo/services/admin_service.go:44 | filepath.Ext: empty, or the suffix from the last dot with no slash or dot after it |
| Paths.Clean | tunetudo/services/playback_service.go:81 | filepath.Clean never returns "" |
| Paths.CleanElemsCanonical | tunetudo/services/playback_service.go:81 | the cleaned elements have no "" or "." and ".." only in front |
| Paths.JoinPath | tunetudo/services/playback_service.go:81 | filepath.Join of two elements is "" exactly when both are "" |
| Paths.JoinBelow | tunetudo/services/playback_service.go:81 | a relative path of plain elements lands unchanged below the cleaned directory |
| Paths.JoinBelowDotSlash | tunetudo/services/playback_service.go:81 | below "./<dir>" the path becomes <dir>/<path> |

## Left out

- Cryptographic internals: bcrypt, HS256 signing, JWT parsing, SHA-256, `crypto/rand` and base64 padding rules beyond length and alphabet. They are library code; the model takes them as parameters with the round trips they promise.
- The JWT library's own claim checks are left out; only the explicit `now > exp` test is modelled. With jwt v4, `jwt.Parse` already runs `MapClaims.Valid`, which refuses a token once `now` is not before `exp` (and checks `iat` and `nbf`). So in the running program the "token has expired" branch cannot be reached, and a token is already refused at `now == exp`, where `ValidateToken` and `TokenRoundTrip` still accept it.
- `SendPasswordResetEmail` and SMTP: network I/O, modelled as a flag saying whether the send succeeded.
- Wall-clock time: a parameter in seconds; timestamps formatted into log lines are left out.
- Writing log lines. The logger's file handling (`InitLogger`) and the plain `Info`, `Warning` and `Debug` writers are I/O. The records the security writers build are modelled.
- Concurrency: the reset store is an unsynchronised global map, modelled sequentially.
- Map iteration order: `ValidateResetToken` makes an arbitrary choice each round. The query values of `RequestValidator` are a sequence in iteration order.
- The SQL engine. Tables are sequences with their UNIQUE constraints. Without ORDER BY, rows come in table order. `created_at` order is insertion order, which the increasing ids stand for.
- LIKE wildcards: a `%` or `_` inside the user's query matches like any other character in the model, whereas SQLite would treat it as a wildcard.
- SQLite's own LOWER and BINARY collation are taken as ASCII lowercasing and code-point order.
- Non-ASCII case mapping: `strings.ToLower` is modelled for ASCII letters only.
- The full-text index (`updateFTSIndex`, the `songs_fts` table) is left out. It is written but never read by the code modelled.
- File-system I/O is left out: `os.MkdirAll`, `os.Create`, `io.Copy`, `os.Remove`, and UUID generation. Each write failure is a fault flag and the UUID is a parameter. `os.Stat` is a function parameter.
- `filepath.Join` is modelled with two elements. The calls with three or four elements are written out as one joined relative path.
- Float claims: `user_id` is a real number in the model, truncated as Go's int conversion does. Float rounding is not modelled.
- A nil slice and an empty slice are both the empty sequence; the JSON difference (`null` versus `[]`) is not modelled.
- Catalog.Library.UserUploadSong: when the "Unknown Artist" lookup fails and the insert also fails, the source dereferences a nil result and panics. The model assumes the insert succeeds.
- The remaining services are outside the modelled core: `GetPlaylistSongs`, `GetUserByID`, `GetUserUploads`, `GetProfile`, `GetAllUsers` and `GetAllSongs`. Each is a plain read with a scan loop, like the ones modelled.
- The remaining controllers are outside the modelled core: `Logout`, `GetProfile`, `GetCategories`, the playlist handlers, `GetSong`, `StreamSong`, the upload handlers and the admin handlers. Each only forwards a service result.
- Routes, TLS, helmet and the rate limiter are framework wiring, and so is `main.go`.
- Database schema creation and seeding.
- Middleware.GetUserID: the handlers that call it test only its error, which is always nil, so with an absent user_id they would go on with id 0 over the written 401. Those handlers are not part of this model; every route that reaches them is behind AuthMiddleware, where `GatesCompose` shows the id is present.
- Middleware.AuthMiddleware: only numeric `user_id` claims are accepted. A JSON number that is not finite cannot occur in the model.
