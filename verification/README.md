# Authentication core of a Rust web backend, in Dafny

This project models the authentication subsystem of an actix-web service: how it
issues, verifies and refreshes JSON Web Tokens (RFC 7519, compact form of section 7.1
of RFC 7515, HS256 of section 3.2 of RFC 7518), how its gate checks the
`Authorization: Bearer <token>` header (section 2.1 of RFC 6750) before a protected
route runs, how `register` and `login` mint a token pair and set the `refresh_token`
cookie (section 4.1.2 of RFC 6265), how errors become HTTP statuses (section 15 of
RFC 9110) and JSON bodies, and how database errors, including PostgreSQL's
unique_violation `23505`, are classified.

One Dafny module per source file:

| file | module | source |
|---|---|---|
| wrappers.dfy | `Wrappers` | Rust's `Option` and `Result` |
| roles.dfy | `Roles` | src/models/auth.rs |
| users.dfy | `Users` | src/models/user.rs |
| api_errors.dfy | `ApiErrors` | src/common/errors/api_error.rs |
| dto.dfy | `Dto` | src/entities/auth/dto.rs |
| http.dfy | `Http` | the request and response parts the framework hands the core |
| jwt.dfy | `Jwt` | src/entities/auth/jwt.rs |
| jwt_auth.dfy | `JwtAuth` | src/auth/middlewares/jwt_auth.rs |
| role_guard.dfy | `Guards` | src/entities/auth/guards/role_guard.rs |
| user_lookup.dfy | `UserLookup` | src/user/mod.rs |
| auth_handlers.dfy | `AuthHandlers` | src/auth/mod.rs |

How the collaborators appear:

- The token library is a record of functions, `Jwt.Jose`: a codec for the header, a
  codec for the claims (whose encoder may fail with a text), and `sign(key, message)`,
  the signature segment of a keyed MAC. `Jwt.Lawful` states what the library
  guarantees: each decoder inverts its encoder and no segment contains a dot. Splitting
  a token follows the library: the signature is after the last dot, the payload after
  the dot before it.
- The secret (`JWT_SECRET`), the clock, the two token lifetimes and the expiry leeway
  of the default validation are fields of `Jwt.JwtSettings` or parameters. A token is
  expired once `exp < now - leeway`.
- `exp` is `(now + ttl) as usize`; the model reduces the sum modulo 2^64, which is what
  a wrapped 64-bit sum cast to `usize` gives, so a negative sum wraps instead of being
  excluded.
- bcrypt is `AuthHandlers.Hasher`, two opaque functions that may fail. The email rule of
  the validator is an opaque predicate `isEmail`.
- The `users` table is the class `AuthHandlers.UserStore`, holding a sequence of rows
  and an optional outage error that every query then fails with. `register` appends
  through `UserStore.Insert`; `login` and the lookup only read the rows.
- The header map holds names in lower case. `HeaderValue::to_str` accepts a value when
  every byte is visible ASCII or a tab. `HttpRequest::cookie` returns the first cookie
  with the name.

Behaviour the code has, as modelled:

- The gate never attaches the claims to the request, so `RoleGuard` is false for every
  request that came through it without claims (`Guards.GuardRefusesBehindGate`).
- The refresh exchange does not revoke the presented token. Tokens depend only on the
  secret, the subject, the role, the flag and the clock, so two refreshes in the same
  second return identical tokens.
- `ApiError::Other`, used for token-signing failures and for a wrong password, is 400.
  A wrong password is a 400, not a 401, and an unknown user is a 404.
- The error body has exactly `code`, `error` and `message`; there is no per-field
  detail, even for validation errors.
- The username rule admits 3 to 20 characters inclusive, although its message says
  "more than 3".
- The literal messages are the code's own, e.g. "Authorization header missing",
  "Invalid authorization header scheme", "Refresh token cookie not found".

## Model

| member | source | states |
|---|---|---|
| `Roles.UserRole.IsAdmin` | src/models/auth.rs:14-16 | true iff the role is Admin |
| `Roles.UserRole.IsUser` | src/models/auth.rs:18-20 | true iff the role is User |
| `Roles.RoleIsExactlyOne` | src/models/auth.rs:7-20 | `is_admin` holds iff the role is Admin, `is_user` iff it is User, and exactly one of them holds for every role |
| `Roles.ParseDatabaseName` | src/models/auth.rs:5-11 | the database form: a name reads back as a role exactly when it is that role's "USER"/"ADMIN" name |
| `Roles.ParseJsonName` | src/models/auth.rs:5-11 | the JSON form: a name reads back as a role exactly when it is that role's "User"/"Admin" name |
| `Roles.RoleNamesRoundTrip` | src/models/auth.rs:5-6 | each encoding round-trips, and neither form is accepted by the other's parser |
| `Roles.AsUsize` | src/entities/auth/jwt.rs:32 | the `as usize` cast is the identity on in-range values, wraps negatives by 2^64, and always agrees with the input modulo 2^64 |
| `Users.FromUserWithPassword` | src/models/user.rs:11-20 | the projection is total and keeps id, username, email and role |
| `Users.WithPassword` | src/models/user.rs:22-29 | a stored row built from a public user and a hash carries that hash and projects back to the same user |
| `Users.ProjectionForgetsOnlyPassword` | src/models/user.rs:4-20 | the projection loses the password and nothing else |
| `Users.ProjectionIgnoresPassword` | src/models/user.rs:11-20 | rows that differ only in their hashes project to the same public user |
| `ApiErrors.Message` | src/common/errors/api_error.rs:34-50 | NotFound, Unauthorized and Other display their text verbatim; UniqueViolation is "Entity with such {field} already exists"; Validation is "Validation Error"; InternalServer is "Database error: " followed by its text |
| `ApiErrors.StatusCode` | src/common/errors/api_error.rs:53-63 | 409 iff UniqueViolation, 404 iff NotFound, 401 iff Unauthorized, 400 iff Validation or Other, 500 iff InternalServer |
| `ApiErrors.ErrorResponse` | src/common/errors/api_error.rs:65-83 | the reply's status is the error's status; the body holds that number as `code`, the canonical reason (or "Error") as `error`, and the display text as `message` |
| `ApiErrors.ErrorBodyNamesReason` | src/common/errors/api_error.rs:76-80 | every error's body names a real reason phrase; "Unauthorized" exactly for Unauthorized, "Bad Request" exactly for Validation and Other |
| `ApiErrors.LastCaptureAt` | src/common/errors/api_error.rs:26-27 | the scan finds the largest match position at or below its start, and none when there is none |
| `ApiErrors.CaptureIndex` | src/common/errors/api_error.rs:26-27 | under leftmost-first, greedy semantics the capture starts after the last underscore that leaves a non-empty, line-feed-free group before the final `_key` |
| `ApiErrors.ExtractFieldFromConstraint` | src/common/errors/api_error.rs:24-32 | group 1 of `.*_(.+)_key$` when the pattern matches, "field" otherwise; never empty |
| `ApiErrors.CaptureFollowsLastUnderscore` | src/common/errors/api_error.rs:26-28 | the extracted field holds no underscore except possibly as its last character |
| `ApiErrors.ExtractFromConstraintName` | src/common/errors/api_error.rs:24-29 | a `<table>_<column>_key` name gives back its column when the column has no underscore and no line feed |
| `ApiErrors.ConstraintExamples` | src/common/errors/api_error.rs:24-31 | "users_email_key" gives "email", "users_first_name_key" gives "name", "users_pkey" gives "field" |
| `ApiErrors.FromSqlx` | src/common/errors/api_error.rs:87-105 | UniqueViolation exactly for a database error with code 23505 and a constraint, naming the extracted field; everything else is InternalServer with the error's text (a database error's text is "error returned from database: " and the server's message) |
| `ApiErrors.DuplicateColumnIsConflict` | src/common/errors/api_error.rs:97-101 | a duplicate on `<table>_<column>_key` is a 409 whose message names the column |
| `Dto.FieldErrors` | src/entities/auth/dto.rs:4-14 | each field is reported iff its rule fails, with the rule's code and the source's message, and no other field is reported |
| `Dto.Validate` | src/entities/auth/dto.rs:4-14 | a registration input passes iff the username has 3 to 20 characters, the password at least 6 and the email is accepted; otherwise the non-empty field errors are returned |
| `Dto.UsernameBoundsInclusive` | src/entities/auth/dto.rs:6 | 3 and 20 characters pass, 2 and 21 do not |
| `Http.HeaderValue` | src/auth/middlewares/jwt_auth.rs:54 | the value of the first header with the name, and none exactly when no header has it |
| `Http.CookieValue` | src/entities/auth/jwt.rs:90-93 | the value of the first cookie with the name, and none exactly when no cookie has it |
| `Jwt.SplitLastDot` | src/entities/auth/jwt.rs:50-54 | a split gives a left part, a dot and a dot-free right part that join back to the input; no split exactly when there is no dot |
| `Jwt.SplitCompact` | src/entities/auth/jwt.rs:50-54 | a split token is header, dot, dot-free payload, dot, dot-free signature; a token with at most one dot does not split |
| `Jwt.SplitCompactOfJoin` | src/entities/auth/jwt.rs:35-54 | splitting a token assembled from dot-free payload and signature segments gives those segments back |
| `Jwt.CreateJwt` | src/entities/auth/jwt.rs:18-43 | issuing fails exactly when the claims encoder fails, with the source's message prefix before the encoder's text |
| `Jwt.VerifyJwt` | src/entities/auth/jwt.rs:45-57 | claims are returned only for a token that splits, has an HS256 header, carries the MAC of its header and payload under the secret, decodes to those claims and is not expired; any other token gives the same `None` |
| `Jwt.VerifyIssuedToken` | src/entities/auth/jwt.rs:26-56 | round trip: a token issued with lifetime `ttl` verifies, under the same secret and before expiry, to exactly `{sub: user_id, role, is_premium, exp: (now + ttl) as usize}` |
| `Jwt.VerifyRejectsExpiredToken` | src/entities/auth/jwt.rs:48-56 | the same token gives `None` once `now - leeway` passes its expiry, though its signature is valid |
| `Jwt.VerifyRejectsOtherSecret` | src/entities/auth/jwt.rs:46-56 | a token signed under one secret gives `None` under a secret whose MAC differs on every message |
| `Jwt.MalformedTokenRejected` | src/entities/auth/jwt.rs:50-56 | a string with at most one dot gives `None` |
| `Jwt.GenerateTokens` | src/entities/auth/jwt.rs:59-83 | both tokens or an `Other` error, never one: the access token uses the access lifetime, the refresh token the refresh lifetime, and a failure of either is reported with its own message |
| `Jwt.GeneratedTokensVerify` | src/entities/auth/jwt.rs:64-82 | both tokens of a pair verify to the given subject, role and flag, each with the expiry of its own lifetime |
| `Jwt.RefreshCookie` | src/entities/auth/jwt.rs:103-109 | the cookie is `refresh_token`, HttpOnly, Secure only in production, Path "/", SameSite Strict, Max-Age 2592000 seconds |
| `Jwt.RefreshToken` | src/entities/auth/jwt.rs:85-114 | no cookie gives Unauthorized "Refresh token cookie not found" before any verification; a token that does not verify gives Unauthorized "Invalid Refresh Token"; a present cookie that verifies is exchanged: 200 with only `access_token` in the body and the new refresh cookie when minting a pair for the presented claims' sub, flag and role succeeds, and the minting error itself when it fails |
| `Jwt.RefreshPreservesIdentity` | src/entities/auth/jwt.rs:96-113 | after a refresh, the new access token and the rotated cookie's token verify to the presented token's subject, role and premium flag |
| `Jwt.RefreshExchangesIssuedPair` | src/entities/auth/jwt.rs:85-114 | the refresh cookie of an issued pair, presented before it expires, is exchanged whenever minting succeeds, and the new access token verifies to the same subject, role and premium flag |
| `JwtAuth.ToStr` | src/auth/middlewares/jwt_auth.rs:55-57 | a header value reads as text exactly when every byte is visible ASCII or tab, and then character by character |
| `JwtAuth.Authenticate` | src/auth/middlewares/jwt_auth.rs:54-75 | the decision table in order: no header → "Authorization header missing"; unreadable → "Invalid Authorization header"; no exact "Bearer " prefix → "Invalid authorization header scheme"; the text after its first 7 characters not verifying → "Invalid or expired token"; forward iff all pass |
| `JwtAuth.Call` | src/auth/middlewares/jwt_auth.rs:50-79 | the wrapped service runs only when the gate forwards, and then on the unchanged request; otherwise the gate's error is the answer |
| `JwtAuth.RejectionIsUnauthorized` | src/auth/middlewares/jwt_auth.rs:54-75 | every rejection is a 401 whose body names "Unauthorized" |
| `JwtAuth.IssuedTokenPasses` | src/auth/middlewares/jwt_auth.rs:65-77 | "Bearer " followed by a token issued under the same secret is forwarded until the token expires |
| `JwtAuth.LowerCaseSchemeRejected` | src/auth/middlewares/jwt_auth.rs:65-69 | "bearer " in lower case is refused with the scheme error, whatever follows |
| `Guards.Check` | src/entities/auth/guards/role_guard.rs:10-19 | true iff claims are present in the request data and their role equals the required role |
| `Guards.NoRoleHierarchy` | src/entities/auth/guards/role_guard.rs:15 | admin claims fail a User guard and user claims fail an Admin guard |
| `Guards.GuardRefusesBehindGate` | src/entities/auth/guards/role_guard.rs:13-18 | a guard run behind the gate on a request that arrived without claims answers false |
| `UserLookup.FetchOne` | src/user/mod.rs:12-22 | the row returned is stored and matches by username or email; without an outage a row is returned iff one matches, else RowNotFound |
| `UserLookup.CheckUserExists` | src/user/mod.rs:8-31 | a matching stored row with its hash; "User {identifier} not found" when none matches; any other database error is InternalServer with its text |
| `UserLookup.LookupNeverReportsConflict` | src/user/mod.rs:29 | the lookup never reports a 409: its database errors skip the unique-violation classification |
| `AuthHandlers.InsertOutcome` | src/auth/mod.rs:46-59 | the insert succeeds iff the database answers and id, username and email are all new, returning the user with the default role; a taken email alone is reported as `users_email_key` |
| `AuthHandlers.InsertKeepsKeysDistinct` | src/auth/mod.rs:46-59 | a successful insert keeps ids, usernames and emails distinct |
| `AuthHandlers.UserStore.Insert` | src/auth/mod.rs:53-59 | appends exactly the new row (holding the hash) on success, changes nothing on failure, and keeps the table's keys distinct |
| `AuthHandlers.AuthSuccess` | src/auth/mod.rs:61-78 | a token error is passed on; otherwise 200 with `{user, access_token}` in the body and the refresh cookie |
| `AuthHandlers.AuthSuccessTokensVerify` | src/auth/mod.rs:62-78 | the body's access token and the cookie's refresh token verify to the user's id and role with `is_premium = false` |
| `AuthHandlers.Admit` | src/auth/mod.rs:25-59 | an invalid input is a Validation error before hashing; a hash failure is InternalServer "Something went wrong on server side"; an insert error goes through `From<sqlx::Error>`; success is the new user with the fresh id |
| `AuthHandlers.Register` | src/auth/mod.rs:21-79 | errors before the insert leave the table unchanged; a successful insert appends the row with the password hash and the fresh id, and the answer is the shared success path for the returned user |
| `AuthHandlers.DuplicateRegistrationIsConflict` | src/auth/mod.rs:53-59 | registering a stored username or email is a 409 naming "username" or "email" |
| `AuthHandlers.Login` | src/auth/mod.rs:81-118 | a lookup error is passed on; a compare failure is Other "Error when tried to compare passwords"; a wrong password is Other "Incorrect Password"; a right one is the shared success path for the public user |
| `AuthHandlers.LoginAnswersForStoredUser` | src/auth/mod.rs:86-117 | a successful login answers for a stored row matching the identifier whose hash the password verified against, and its access token carries that row's id and role with `is_premium = false` |
| `AuthHandlers.WrongPasswordIsBadRequest` | src/auth/mod.rs:95-99 | a wrong password is a 400 with the message "Incorrect Password" |
| `AuthHandlers.UnknownUserIsNotFound` | src/auth/mod.rs:86-92 | an identifier that matches no row is a 404 "User {identifier} not found" |

## Left out

- HMAC-SHA256, base64url and JSON: the token library is the abstract `Jwt.Jose`; a
  wrong secret is rejected only where its MAC differs, which the model takes as a
  hypothesis.
- `Jwt.GenerateTokens`: the `{:?}` rendering of the inner error is modelled as the text in
  double quotes; Rust's escaping of quotes and control characters inside it is not.
- `ApiErrors.ErrorResponse`: the reason-phrase table covers only the statuses this
  service produces (200, 400, 401, 404, 409, 500).
- `AuthHandlers.InsertOutcome`: the table's constraints are not part of this model's
  sources; the model assumes PostgreSQL's default names `users_pkey`,
  `users_username_key` and `users_email_key`, checked in that order, and a role
  column defaulting to USER.
- `UserLookup.FetchOne`: `LIMIT 1` without an order leaves the row unspecified; the model
  returns the first match in table order, and its contract promises only some
  matching stored row.
- The debug-build panic on an `i64` overflow of `now + ttl` is not modelled; the
  release-build wrap is.
- The validator's email rule is the opaque predicate `isEmail`; bcrypt's hash and
  verify are opaque functions.
- `Jwt.GenerateTokens`, `Jwt.RefreshToken`, `AuthHandlers.AuthSuccess`: each request is
  modelled at a single instant `now`, shared by the verifier's expiry test and both
  `create_jwt` calls. The code reads `Utc::now()` anew in each `create_jwt` and the
  library reads the clock again while verifying, so the access and refresh `exp` values
  (and the expiry test) can rest on different seconds when time passes between them.
- Wall clock, environment reads (`JWT_SECRET` with its fallback, `APP_ENV`) and the
  UUID generator: parameters.
- The debug `println!` in `register` (which, as written, has a stray `.` before its
  closing parenthesis) has no effect on the outcome and is left out.
- Actix plumbing (`Transform`, `Rc`, futures, `forward_ready!`, response building),
  process start-up, database pool and migrations, and the route table: I/O.
- Concurrency: each request is independent and the core has no shared mutable state
  besides the table.
