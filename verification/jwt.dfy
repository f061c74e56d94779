/**
 * Token issue, verification and refresh (src/entities/auth/jwt.rs).
 *
 * A token is a JSON Web Token (RFC 7519) in the compact serialisation of section 7.1
 * of RFC 7515, `header "." payload "." signature`, signed with HS256 (section 3.2 of
 * RFC 7518). The signing library is abstracted as a record of functions, `Jose`: how a
 * header and the claims become segments, and the keyed MAC that gives the signature
 * segment. The secret, the clock, the leeway and both lifetimes are parameters.
 */
module Jwt {
  import opened Wrappers
  import opened Roles
  import opened ApiErrors
  import opened Dto
  import opened Http

  /** The JOSE header: token type and signature algorithm. */
  datatype Header = Header(typ: Option<string>, alg: string)

  /** The one algorithm issued and accepted. */
  const HS256 := "HS256"

  /** `Header::default()`. */
  const DefaultHeader := Header(Some("JWT"), HS256)

  /**
   * The token library as the model sees it: segment codecs for the header and the
   * claims (base64url over JSON in the library), the claims encoder's failure text,
   * and `sign(key, message)`, the signature segment of an HMAC keyed by `key`.
   */
  datatype Jose = Jose(
    encodeHeader: Header -> string,
    decodeHeader: string -> Option<Header>,
    encodeClaims: Claims -> Result<string, string>,
    decodeClaims: string -> Option<Claims>,
    sign: (string, string) -> string)

  /**
   * What the library guarantees: every decoder inverts its encoder, and no segment it
   * produces contains a dot (base64url has none).
   */
  ghost predicate Lawful(jose: Jose)
  {
    (forall h :: '.' !in jose.encodeHeader(h) && jose.decodeHeader(jose.encodeHeader(h)) == Some(h))
    && (forall c :: jose.encodeClaims(c).Ok? ==>
          '.' !in jose.encodeClaims(c).value && jose.decodeClaims(jose.encodeClaims(c).value) == Some(c))
    && (forall key, message :: '.' !in jose.sign(key, message))
  }

  /**
   * The configuration the source reads from its surroundings: the secret (`JWT_SECRET`),
   * the two lifetimes in seconds, and the expiry leeway of the default validation.
   */
  datatype JwtSettings = JwtSettings(secret: string, accessTtl: int, refreshTtl: int, leeway: nat)

  // ---------------------------------------------------------------------------
  // The compact serialisation

  /** Index of the last dot. */
  function LastDot(s: string): (r: Option<nat>)
    ensures r.Some? ==> r.value < |s| && s[r.value] == '.' && '.' !in s[r.value + 1..]
    ensures r.None? ==> '.' !in s
  {
    if |s| == 0 then None
    else if s[|s| - 1] == '.' then Some(|s| - 1)
    else
      var r := LastDot(s[..|s| - 1]);
      assert r.Some? ==> s[r.value + 1..] == s[..|s| - 1][r.value + 1..] + [s[|s| - 1]];
      assert s == s[..|s| - 1] + [s[|s| - 1]];
      r
  }

  /** `rsplitn(2, '.')`: the text before and after the last dot. */
  function SplitLastDot(s: string): (r: Option<(string, string)>)
    ensures r.Some? ==> s == r.value.0 + "." + r.value.1 && '.' !in r.value.1
    ensures r.None? <==> '.' !in s
  {
    match LastDot(s)
    case Some(i) =>
      assert s == s[..i] + "." + s[i + 1..];
      Some((s[..i], s[i + 1..]))
    case None => None
  }

  /** Splitting a joined pair at its last dot gives the pair back when the right part has no dot. */
  lemma {:induction false} SplitLastDotOfJoin(a: string, b: string)
    requires '.' !in b
    ensures SplitLastDot(a + "." + b) == Some((a, b))
  {
    var s := a + "." + b;
    assert s[|a|] == '.';
    var (a', b') := SplitLastDot(s).value;
    assert a' == s[..|a|] == a;
  }

  /** The three segments of a compact token. */
  datatype Segments = Segments(header: string, payload: string, signature: string)

  /** Splits a token as the library does: signature after the last dot, payload after the one before. */
  function SplitCompact(token: string): (r: Option<Segments>)
    ensures r.Some? ==> token == r.value.header + "." + r.value.payload + "." + r.value.signature
    ensures r.Some? ==> '.' !in r.value.payload && '.' !in r.value.signature
    ensures r.None? ==> forall i, j :: 0 <= i < j < |token| && token[i] == '.' ==> token[j] != '.'
  {
    match SplitLastDot(token)
    case None => None
    case Some((message, signature)) =>
      match SplitLastDot(message)
      case None =>
        assert token == message + "." + signature;
        None
      case Some((header, payload)) => Some(Segments(header, payload, signature))
  }

  /** `header "." payload`, the text the signature covers. */
  function SigningInput(header: string, payload: string): string
  {
    header + "." + payload
  }

  /** A token whose segments were produced by the library joins back into exactly those segments. */
  lemma {:induction false} SplitCompactOfJoin(header: string, payload: string, signature: string)
    requires '.' !in payload && '.' !in signature
    ensures SplitCompact(SigningInput(header, payload) + "." + signature) == Some(Segments(header, payload, signature))
  {
    SplitLastDotOfJoin(SigningInput(header, payload), signature);
    SplitLastDotOfJoin(header, payload);
  }

  // ---------------------------------------------------------------------------
  // Issue and verify

  /** The prefix of `create_jwt`'s error message. */
  const CreateErrorPrefix := "Ошибка при попытке создания токена, "

  /**
   * `create_jwt`: claims with `exp = (now + ttl) as usize` signed under the default
   * header; fails only when the claims encoder fails.
   */
  function CreateJwt(jose: Jose, secret: string, now: int, ttl: int, userId: string, isPremium: bool, role: UserRole)
    : (r: Result<string, string>)
    ensures r.Ok? <==> jose.encodeClaims(Claims(userId, role, isPremium, AsUsize(now + ttl))).Ok?
    ensures r.Err? ==> r.error == CreateErrorPrefix + jose.encodeClaims(Claims(userId, role, isPremium, AsUsize(now + ttl))).error
  {
    var claims := Claims(userId, role, isPremium, AsUsize(now + ttl));
    match jose.encodeClaims(claims)
    case Err(e) => Err(CreateErrorPrefix + e)
    case Ok(payload) =>
      var message := SigningInput(jose.encodeHeader(DefaultHeader), payload);
      Ok(message + "." + jose.sign(secret, message))
  }

  /** The default validation's expiry test: a token is expired once `exp < now - leeway`. */
  predicate Expired(claims: Claims, now: int, leeway: nat)
  {
    claims.exp < now - leeway
  }

  /** The checks a token passed when the verifier accepts it with `claims`. */
  predicate Accepted(jose: Jose, secret: string, now: int, leeway: nat, token: string, claims: Claims)
  {
    match SplitCompact(token)
    case None => false
    case Some(seg) =>
      jose.decodeHeader(seg.header).Some? && jose.decodeHeader(seg.header).value.alg == HS256
      && seg.signature == jose.sign(secret, SigningInput(seg.header, seg.payload))
      && jose.decodeClaims(seg.payload) == Some(claims)
      && !Expired(claims, now, leeway)
  }

  /**
   * `verify_jwt`: the claims of a well-formed, HS256-signed, correctly signed and
   * unexpired token; every failure, whatever its cause, is the same `None`.
   */
  function VerifyJwt(jose: Jose, secret: string, now: int, leeway: nat, token: string): (r: Option<Claims>)
    ensures r.Some? ==> Accepted(jose, secret, now, leeway, token, r.value)
    ensures r.None? ==> forall c :: !Accepted(jose, secret, now, leeway, token, c)
    ensures r.Some? ==> !Expired(r.value, now, leeway)
  {
    match SplitCompact(token)
    case None => None
    case Some(seg) =>
      match jose.decodeHeader(seg.header)
      case None => None
      case Some(header) =>
        if header.alg != HS256 then None
        else if seg.signature != jose.sign(secret, SigningInput(seg.header, seg.payload)) then None
        else
          match jose.decodeClaims(seg.payload)
          case None => None
          case Some(claims) => if Expired(claims, now, leeway) then None else Some(claims)
  }

  /**
   * Round trip: a token issued at `issuedAt` with lifetime `ttl` verifies under the same
   * secret, at any time before its expiry, to exactly the claims it was built from.
   */
  lemma {:induction false} VerifyIssuedToken(
    jose: Jose, secret: string, issuedAt: int, ttl: int, userId: string, isPremium: bool, role: UserRole,
    now: int, leeway: nat)
    requires Lawful(jose)
    requires CreateJwt(jose, secret, issuedAt, ttl, userId, isPremium, role).Ok?
    requires now - leeway <= AsUsize(issuedAt + ttl)
    ensures VerifyJwt(jose, secret, now, leeway, CreateJwt(jose, secret, issuedAt, ttl, userId, isPremium, role).value)
            == Some(Claims(userId, role, isPremium, AsUsize(issuedAt + ttl)))
  {
    var claims := Claims(userId, role, isPremium, AsUsize(issuedAt + ttl));
    var header := jose.encodeHeader(DefaultHeader);
    var payload := jose.encodeClaims(claims).value;
    SplitCompactOfJoin(header, payload, jose.sign(secret, SigningInput(header, payload)));
  }

  /** The same token is rejected once its expiry (plus leeway) has passed, signature notwithstanding. */
  lemma {:induction false} VerifyRejectsExpiredToken(
    jose: Jose, secret: string, issuedAt: int, ttl: int, userId: string, isPremium: bool, role: UserRole,
    now: int, leeway: nat)
    requires Lawful(jose)
    requires CreateJwt(jose, secret, issuedAt, ttl, userId, isPremium, role).Ok?
    requires now - leeway > AsUsize(issuedAt + ttl)
    ensures VerifyJwt(jose, secret, now, leeway, CreateJwt(jose, secret, issuedAt, ttl, userId, isPremium, role).value) == None
  {
    var claims := Claims(userId, role, isPremium, AsUsize(issuedAt + ttl));
    var header := jose.encodeHeader(DefaultHeader);
    var payload := jose.encodeClaims(claims).value;
    SplitCompactOfJoin(header, payload, jose.sign(secret, SigningInput(header, payload)));
  }

  /**
   * A token signed under one secret does not verify under another whose MAC differs
   * on every message.
   */
  lemma {:induction false} VerifyRejectsOtherSecret(
    jose: Jose, secret: string, other: string, issuedAt: int, ttl: int, userId: string, isPremium: bool,
    role: UserRole, now: int, leeway: nat)
    requires Lawful(jose)
    requires CreateJwt(jose, secret, issuedAt, ttl, userId, isPremium, role).Ok?
    requires forall message :: jose.sign(secret, message) != jose.sign(other, message)
    ensures VerifyJwt(jose, other, now, leeway, CreateJwt(jose, secret, issuedAt, ttl, userId, isPremium, role).value) == None
  {
    var claims := Claims(userId, role, isPremium, AsUsize(issuedAt + ttl));
    var header := jose.encodeHeader(DefaultHeader);
    var payload := jose.encodeClaims(claims).value;
    SplitCompactOfJoin(header, payload, jose.sign(secret, SigningInput(header, payload)));
  }

  /** A string with at most one dot is never a token. */
  lemma MalformedTokenRejected(jose: Jose, secret: string, now: int, leeway: nat, token: string)
    requires forall i, j :: 0 <= i < j < |token| && token[i] == '.' ==> token[j] != '.'
    ensures VerifyJwt(jose, secret, now, leeway, token) == None
  {
  }

  // ---------------------------------------------------------------------------
  // The token pair

  /** `{:?}` of a string: the text in double quotes (escapes inside are not modelled). */
  function DebugString(s: string): string
  {
    "\"" + s + "\""
  }

  const AccessErrorPrefix := "Error when trying to generate access token "
  const RefreshErrorPrefix := "Error when trying to generate refresh token "

  /**
   * `generate_tokens`: an access token with the access lifetime and a refresh token with
   * the refresh lifetime, both for the same subject; both or an `Other` error, never one.
   */
  function GenerateTokens(jose: Jose, settings: JwtSettings, now: int, userId: string, isPremium: bool, role: UserRole)
    : (r: Result<Tokens, ApiError>)
    ensures var access := CreateJwt(jose, settings.secret, now, settings.accessTtl, userId, isPremium, role);
      var refresh := CreateJwt(jose, settings.secret, now, settings.refreshTtl, userId, isPremium, role);
      && (r.Ok? <==> access.Ok? && refresh.Ok?)
      && (r.Ok? ==> r.value == Tokens(access.value, refresh.value))
      && (access.Err? ==> r == Err(Other(AccessErrorPrefix + DebugString(access.error))))
      && (access.Ok? && refresh.Err? ==> r == Err(Other(RefreshErrorPrefix + DebugString(refresh.error))))
  {
    match CreateJwt(jose, settings.secret, now, settings.accessTtl, userId, isPremium, role)
    case Err(e) => Err(Other(AccessErrorPrefix + DebugString(e)))
    case Ok(accessToken) =>
      match CreateJwt(jose, settings.secret, now, settings.refreshTtl, userId, isPremium, role)
      case Err(e) => Err(Other(RefreshErrorPrefix + DebugString(e)))
      case Ok(refreshToken) => Ok(Tokens(accessToken, refreshToken))
  }

  /**
   * Both tokens of a pair verify to the subject, role and flag they were minted for;
   * they differ only in expiry, which follows the access and the refresh lifetime.
   */
  lemma {:induction false} GeneratedTokensVerify(
    jose: Jose, settings: JwtSettings, issuedAt: int, userId: string, isPremium: bool, role: UserRole, now: int)
    requires Lawful(jose)
    requires GenerateTokens(jose, settings, issuedAt, userId, isPremium, role).Ok?
    ensures var t := GenerateTokens(jose, settings, issuedAt, userId, isPremium, role).value;
      now - settings.leeway <= AsUsize(issuedAt + settings.accessTtl) ==>
        VerifyJwt(jose, settings.secret, now, settings.leeway, t.accessToken)
        == Some(Claims(userId, role, isPremium, AsUsize(issuedAt + settings.accessTtl)))
    ensures var t := GenerateTokens(jose, settings, issuedAt, userId, isPremium, role).value;
      now - settings.leeway <= AsUsize(issuedAt + settings.refreshTtl) ==>
        VerifyJwt(jose, settings.secret, now, settings.leeway, t.refreshToken)
        == Some(Claims(userId, role, isPremium, AsUsize(issuedAt + settings.refreshTtl)))
  {
    if now - settings.leeway <= AsUsize(issuedAt + settings.accessTtl) {
      VerifyIssuedToken(jose, settings.secret, issuedAt, settings.accessTtl, userId, isPremium, role, now, settings.leeway);
    }
    if now - settings.leeway <= AsUsize(issuedAt + settings.refreshTtl) {
      VerifyIssuedToken(jose, settings.secret, issuedAt, settings.refreshTtl, userId, isPremium, role, now, settings.leeway);
    }
  }

  // ---------------------------------------------------------------------------
  // The refresh exchange

  /** Name of the cookie that carries the refresh token. */
  const RefreshCookieName := "refresh_token"

  /** Thirty days in seconds. */
  const RefreshCookieMaxAge: int := 30 * 24 * 60 * 60

  /**
   * The refresh cookie that login, registration and refresh all set: `HttpOnly`,
   * `Secure` only in production, `Path=/`, `SameSite=Strict`, `Max-Age` thirty days
   * (section 4.1.2 of RFC 6265; `SameSite` from its successor draft).
   */
  function RefreshCookie(refreshToken: string, isProduction: bool): (c: SetCookie)
    ensures c.name == "refresh_token" && c.value == refreshToken
    ensures c.httpOnly && c.secure == isProduction && c.path == "/"
    ensures c.sameSite == Strict && c.maxAge == 2592000
  {
    SetCookie(RefreshCookieName, refreshToken, true, isProduction, "/", Strict, RefreshCookieMaxAge)
  }

  const MissingCookieMessage := "Refresh token cookie not found"
  const InvalidRefreshMessage := "Invalid Refresh Token"

  /**
   * `refresh_token`: reads the `refresh_token` cookie, verifies it, mints a new pair for
   * the same subject, flag and role, answers with the access token in the body and the
   * new refresh token in a rotated cookie. The presented token is not revoked.
   */
  function RefreshToken(jose: Jose, settings: JwtSettings, isProduction: bool, now: int, req: Request)
    : (r: Result<Response, ApiError>)
    ensures CookieValue(req.cookies, RefreshCookieName).None? ==>
      r == Err(Unauthorized(MissingCookieMessage))
    ensures var presented := CookieValue(req.cookies, RefreshCookieName);
      presented.Some? && VerifyJwt(jose, settings.secret, now, settings.leeway, presented.value).None? ==>
        r == Err(Unauthorized(InvalidRefreshMessage))
    ensures r.Ok? ==>
      var claims := VerifyJwt(jose, settings.secret, now, settings.leeway, CookieValue(req.cookies, RefreshCookieName).value);
      var tokens := GenerateTokens(jose, settings, now, claims.value.sub, claims.value.isPremium, claims.value.role);
      && claims.Some? && tokens.Ok?
      && r.value == Response(Ok200, [RefreshCookie(tokens.value.refreshToken, isProduction)],
                             AccessTokenBody(tokens.value.accessToken))
    ensures r.Err? && r.error != Unauthorized(MissingCookieMessage) && r.error != Unauthorized(InvalidRefreshMessage) ==>
      r.error.Other?
    ensures var presented := CookieValue(req.cookies, RefreshCookieName);
      presented.Some? && VerifyJwt(jose, settings.secret, now, settings.leeway, presented.value).Some? ==>
        var claims := VerifyJwt(jose, settings.secret, now, settings.leeway, presented.value).value;
        var tokens := GenerateTokens(jose, settings, now, claims.sub, claims.isPremium, claims.role);
        && (tokens.Err? ==> r == Err(tokens.error))
        && (tokens.Ok? ==> r == Ok(Response(Ok200, [RefreshCookie(tokens.value.refreshToken, isProduction)],
                                            AccessTokenBody(tokens.value.accessToken))))
  {
    match CookieValue(req.cookies, RefreshCookieName)
    case None => Err(Unauthorized(MissingCookieMessage))
    case Some(presented) =>
      match VerifyJwt(jose, settings.secret, now, settings.leeway, presented)
      case None => Err(Unauthorized(InvalidRefreshMessage))
      case Some(claims) =>
        match GenerateTokens(jose, settings, now, claims.sub, claims.isPremium, claims.role)
        case Err(e) => Err(e)
        case Ok(tokens) =>
          Ok(Response(Ok200, [RefreshCookie(tokens.refreshToken, isProduction)], AccessTokenBody(tokens.accessToken)))
  }

  /**
   * Rotation keeps the identity: after a successful refresh, the access token in the body
   * and the refresh token in the new cookie verify to the presented token's subject, role
   * and premium flag, each with its own lifetime counted from the refresh.
   */
  lemma {:induction false} RefreshPreservesIdentity(
    jose: Jose, settings: JwtSettings, isProduction: bool, now: int, req: Request, later: int)
    requires Lawful(jose)
    requires RefreshToken(jose, settings, isProduction, now, req).Ok?
    ensures var presented := VerifyJwt(jose, settings.secret, now, settings.leeway,
                                       CookieValue(req.cookies, RefreshCookieName).value);
      var resp := RefreshToken(jose, settings, isProduction, now, req).value;
      && presented.Some? && resp.body.AccessTokenBody? && |resp.cookies| == 1
      && (later - settings.leeway <= AsUsize(now + settings.accessTtl) ==>
            VerifyJwt(jose, settings.secret, later, settings.leeway, resp.body.accessToken)
            == Some(Claims(presented.value.sub, presented.value.role, presented.value.isPremium,
                           AsUsize(now + settings.accessTtl))))
      && (later - settings.leeway <= AsUsize(now + settings.refreshTtl) ==>
            VerifyJwt(jose, settings.secret, later, settings.leeway, resp.cookies[0].value)
            == Some(Claims(presented.value.sub, presented.value.role, presented.value.isPremium,
                           AsUsize(now + settings.refreshTtl))))
  {
    var presented := VerifyJwt(jose, settings.secret, now, settings.leeway,
                               CookieValue(req.cookies, RefreshCookieName).value).value;
    GeneratedTokensVerify(jose, settings, now, presented.sub, presented.isPremium, presented.role, later);
  }

  /**
   * The exchange end to end: a cookie holding the refresh token of a pair issued at
   * `issuedAt`, presented while that token is unexpired, is exchanged whenever minting
   * succeeds, and the new access token verifies to the same subject, role and flag.
   */
  lemma {:induction false} RefreshExchangesIssuedPair(
    jose: Jose, settings: JwtSettings, isProduction: bool, issuedAt: int, userId: string, isPremium: bool,
    role: UserRole, now: int, req: Request)
    requires Lawful(jose)
    requires GenerateTokens(jose, settings, issuedAt, userId, isPremium, role).Ok?
    requires CookieValue(req.cookies, RefreshCookieName)
             == Some(GenerateTokens(jose, settings, issuedAt, userId, isPremium, role).value.refreshToken)
    requires now - settings.leeway <= AsUsize(issuedAt + settings.refreshTtl)
    requires GenerateTokens(jose, settings, now, userId, isPremium, role).Ok?
    requires now - settings.leeway <= AsUsize(now + settings.accessTtl)
    ensures RefreshToken(jose, settings, isProduction, now, req).Ok?
    ensures var resp := RefreshToken(jose, settings, isProduction, now, req).value;
      && resp.body.AccessTokenBody?
      && VerifyJwt(jose, settings.secret, now, settings.leeway, resp.body.accessToken)
         == Some(Claims(userId, role, isPremium, AsUsize(now + settings.accessTtl)))
  {
    GeneratedTokensVerify(jose, settings, issuedAt, userId, isPremium, role, now);
    GeneratedTokensVerify(jose, settings, now, userId, isPremium, role, now);
  }
}
