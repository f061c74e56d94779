/**
 * The authentication gate (src/auth/middlewares/jwt_auth.rs): five checks on the
 * `Authorization` header, in a fixed order, before the wrapped service runs. The
 * credential uses the Bearer scheme of section 2.1 of RFC 6750, matched case-sensitively.
 */
module JwtAuth {
  import opened Wrappers
  import opened Roles
  import opened ApiErrors
  import opened Http
  import opened Jwt

  /** The header name, in the lower-case form the header map stores. */
  const AuthorizationName := "authorization"

  const BearerPrefix := "Bearer "

  const MissingHeaderMessage := "Authorization header missing"
  const UnreadableHeaderMessage := "Invalid Authorization header"
  const SchemeMessage := "Invalid authorization header scheme"
  const InvalidTokenMessage := "Invalid or expired token"

  /** The bytes `HeaderValue::to_str` admits: visible ASCII and horizontal tab. */
  predicate IsVisibleAscii(b: Byte)
  {
    32 <= b < 127 || b == 9
  }

  /** `HeaderValue::to_str`: the value as text when every byte is visible ASCII or tab. */
  function ToStr(value: seq<Byte>): (r: Option<string>)
    ensures r.Some? <==> forall i :: 0 <= i < |value| ==> IsVisibleAscii(value[i])
    ensures r.Some? ==> |r.value| == |value| && forall i :: 0 <= i < |value| ==> r.value[i] as int == value[i]
  {
    if forall i :: 0 <= i < |value| ==> IsVisibleAscii(value[i]) then
      Some(seq(|value|, i requires 0 <= i < |value| => value[i] as char))
    else
      None
  }

  /** `str::starts_with`. */
  predicate StartsWith(s: string, prefix: string)
  {
    |prefix| <= |s| && s[..|prefix|] == prefix
  }

  /** The gate's verdict: pass the request on, or answer with an error. */
  datatype Decision = Forward | Reject(error: ApiError)

  /**
   * The checks of `JwtAuthMiddleware::call` in their order; the first failure decides.
   * The token given to the verifier is the header text without its first seven characters.
   */
  function Authenticate(jose: Jose, settings: JwtSettings, now: int, req: Request): (d: Decision)
    ensures HeaderValue(req.headers, AuthorizationName).None? ==>
      d == Reject(Unauthorized(MissingHeaderMessage))
    ensures var h := HeaderValue(req.headers, AuthorizationName);
      h.Some? && ToStr(h.value).None? ==> d == Reject(Unauthorized(UnreadableHeaderMessage))
    ensures var h := HeaderValue(req.headers, AuthorizationName);
      h.Some? && ToStr(h.value).Some? && !StartsWith(ToStr(h.value).value, BearerPrefix) ==>
        d == Reject(Unauthorized(SchemeMessage))
    ensures var h := HeaderValue(req.headers, AuthorizationName);
      h.Some? && ToStr(h.value).Some? && StartsWith(ToStr(h.value).value, BearerPrefix)
      && VerifyJwt(jose, settings.secret, now, settings.leeway, ToStr(h.value).value[7..]).None? ==>
        d == Reject(Unauthorized(InvalidTokenMessage))
    ensures d == Forward <==>
      var h := HeaderValue(req.headers, AuthorizationName);
      && h.Some? && ToStr(h.value).Some? && StartsWith(ToStr(h.value).value, BearerPrefix)
      && VerifyJwt(jose, settings.secret, now, settings.leeway, ToStr(h.value).value[7..]).Some?
  {
    match HeaderValue(req.headers, AuthorizationName)
    case None => Reject(Unauthorized(MissingHeaderMessage))
    case Some(value) =>
      match ToStr(value)
      case None => Reject(Unauthorized(UnreadableHeaderMessage))
      case Some(text) =>
        if !StartsWith(text, BearerPrefix) then Reject(Unauthorized(SchemeMessage))
        else
          var token := text[7..];
          if VerifyJwt(jose, settings.secret, now, settings.leeway, token).None? then
            Reject(Unauthorized(InvalidTokenMessage))
          else
            Forward
  }

  /**
   * `call`: the wrapped service runs only when the gate forwards, and then on the
   * request exactly as it arrived; no claims are attached to it.
   */
  function Call<R>(svc: Request -> Result<R, ApiError>, jose: Jose, settings: JwtSettings, now: int, req: Request)
    : (r: Result<R, ApiError>)
    ensures Authenticate(jose, settings, now, req).Forward? ==> r == svc(req)
    ensures Authenticate(jose, settings, now, req).Reject? ==>
      r == Err(Authenticate(jose, settings, now, req).error)
  {
    match Authenticate(jose, settings, now, req)
    case Forward => svc(req)
    case Reject(e) => Err(e)
  }

  /** Every rejection is a 401 whose body names the Unauthorized reason. */
  lemma RejectionIsUnauthorized(jose: Jose, settings: JwtSettings, now: int, req: Request)
    requires Authenticate(jose, settings, now, req).Reject?
    ensures var e := Authenticate(jose, settings, now, req).error;
      StatusCode(e) == Unauthorized401 && ErrorResponse(e).body.error == "Unauthorized"
  {
  }

  /**
   * A header `Bearer <token>` carrying a token the issuer minted under the same secret
   * gets through the gate until the token expires.
   */
  lemma {:induction false} IssuedTokenPasses(
    jose: Jose, settings: JwtSettings, issuedAt: int, ttl: int, userId: string, isPremium: bool, role: UserRole,
    now: int, req: Request)
    requires Lawful(jose)
    requires CreateJwt(jose, settings.secret, issuedAt, ttl, userId, isPremium, role).Ok?
    requires now - settings.leeway <= AsUsize(issuedAt + ttl)
    requires HeaderValue(req.headers, AuthorizationName).Some?
    requires ToStr(HeaderValue(req.headers, AuthorizationName).value)
             == Some(BearerPrefix + CreateJwt(jose, settings.secret, issuedAt, ttl, userId, isPremium, role).value)
    ensures Authenticate(jose, settings, now, req) == Forward
  {
    var token := CreateJwt(jose, settings.secret, issuedAt, ttl, userId, isPremium, role).value;
    assert (BearerPrefix + token)[|BearerPrefix|..] == token;
    VerifyIssuedToken(jose, settings.secret, issuedAt, ttl, userId, isPremium, role, now, settings.leeway);
  }

  /** The scheme is matched case-sensitively: `bearer <token>` is refused whatever the token. */
  lemma {:induction false} LowerCaseSchemeRejected(jose: Jose, settings: JwtSettings, now: int, req: Request, token: string)
    requires HeaderValue(req.headers, AuthorizationName).Some?
    requires ToStr(HeaderValue(req.headers, AuthorizationName).value) == Some("bearer " + token)
    ensures Authenticate(jose, settings, now, req) == Reject(Unauthorized(SchemeMessage))
  {
  }
}
