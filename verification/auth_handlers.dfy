/**
 * The registration and login handlers (src/auth/mod.rs). The `users` table is a
 * `UserStore` object whose rows registration appends to; password hashing is an
 * opaque `Hasher`; the fresh UUID, the clock and the production flag are parameters.
 */
module AuthHandlers {
  import opened Wrappers
  import opened Roles
  import opened ApiErrors
  import opened Users
  import opened Dto
  import opened Http
  import opened Jwt
  import opened UserLookup

  /** bcrypt as the handlers use it: `hash` may fail, `verify` may fail or answer. */
  datatype Hasher = Hasher(hash: string -> Option<string>, verify: (string, string) -> Option<bool>)

  /** The `user_role` column's default, the role every registered user gets. */
  const DefaultRole: UserRole := UserRole.User

  /** No two rows share an id, a username or an email. */
  predicate KeysDistinct(rows: seq<UserWithPassword>)
  {
    forall i, j :: 0 <= i < j < |rows| ==>
      rows[i].id != rows[j].id && rows[i].username != rows[j].username && rows[i].email != rows[j].email
  }

  predicate IdTaken(rows: seq<UserWithPassword>, id: string)
  {
    exists k :: 0 <= k < |rows| && rows[k].id == id
  }

  predicate UsernameTaken(rows: seq<UserWithPassword>, username: string)
  {
    exists k :: 0 <= k < |rows| && rows[k].username == username
  }

  predicate EmailTaken(rows: seq<UserWithPassword>, email: string)
  {
    exists k :: 0 <= k < |rows| && rows[k].email == email
  }

  /** The database's error for a duplicate key on `constraint`, with PostgreSQL's message. */
  function DuplicateKey(constraint: string): SqlxError
  {
    Database(UniqueViolationCode, Some(constraint),
             "duplicate key value violates unique constraint \"" + constraint + "\"")
  }

  /**
   * The outcome of `INSERT ... RETURNING` on a table in state (`rows`, `outage`): the
   * failure when the database is unreachable, a unique violation naming the first
   * constraint hit (primary key, then username, then email), or the returned user.
   */
  function InsertOutcome(rows: seq<UserWithPassword>, outage: Option<SqlxError>,
                         username: string, email: string, passwordHash: string, id: string)
    : (r: Result<User, SqlxError>)
    ensures r.Ok? <==> outage.None? && !IdTaken(rows, id) && !UsernameTaken(rows, username) && !EmailTaken(rows, email)
    ensures r.Ok? ==> r.value == Users.User(id, username, email, DefaultRole)
    ensures outage.None? && !IdTaken(rows, id) && !UsernameTaken(rows, username) && EmailTaken(rows, email) ==>
      r == Err(DuplicateKey("users_email_key"))
  {
    if outage.Some? then Err(outage.value)
    else if IdTaken(rows, id) then Err(DuplicateKey("users_pkey"))
    else if UsernameTaken(rows, username) then Err(DuplicateKey("users_username_key"))
    else if EmailTaken(rows, email) then Err(DuplicateKey("users_email_key"))
    else Ok(Users.User(id, username, email, DefaultRole))
  }

  /** A successful insert keeps ids, usernames and emails distinct. */
  lemma {:induction false} InsertKeepsKeysDistinct(rows: seq<UserWithPassword>, outage: Option<SqlxError>,
                                                   username: string, email: string, passwordHash: string, id: string)
    requires KeysDistinct(rows)
    requires InsertOutcome(rows, outage, username, email, passwordHash, id).Ok?
    ensures KeysDistinct(rows + [WithPassword(InsertOutcome(rows, outage, username, email, passwordHash, id).value, passwordHash)])
  {
  }

  /** The `users` table. */
  class UserStore {
    var rows: seq<UserWithPassword>
    /** When set, every query fails with this error (the database is unreachable). */
    var outage: Option<SqlxError>

    ghost predicate Valid()
      reads this
    {
      KeysDistinct(rows)
    }

    constructor (rows: seq<UserWithPassword>, outage: Option<SqlxError>)
      requires KeysDistinct(rows)
      ensures Valid() && this.rows == rows && this.outage == outage
    {
      this.rows := rows;
      this.outage := outage;
    }

    /** `INSERT INTO users (username, email, password, id) ... RETURNING id, username, email, role`. */
    method Insert(username: string, email: string, passwordHash: string, id: string)
      returns (r: Result<User, SqlxError>)
      requires Valid()
      modifies this
      ensures Valid() && outage == old(outage)
      ensures r == InsertOutcome(old(rows), old(outage), username, email, passwordHash, id)
      ensures r.Ok? ==> rows == old(rows) + [WithPassword(r.value, passwordHash)]
      ensures r.Err? ==> rows == old(rows)
    {
      r := InsertOutcome(rows, outage, username, email, passwordHash, id);
      if r.Ok? {
        InsertKeepsKeysDistinct(rows, outage, username, email, passwordHash, id);
        rows := rows + [WithPassword(r.value, passwordHash)];
      }
    }
  }

  // ---------------------------------------------------------------------------
  // The shared success path

  /**
   * The end both handlers share: a token pair for the user with `is_premium = false`,
   * the access token beside the user in the body, the refresh token in the cookie.
   */
  function AuthSuccess(jose: Jose, settings: JwtSettings, isProduction: bool, now: int, user: User)
    : (r: Result<Response, ApiError>)
    ensures var tokens := GenerateTokens(jose, settings, now, user.id, false, user.role);
      && (tokens.Err? ==> r == Err(tokens.error))
      && (tokens.Ok? ==> r == Ok(Response(Ok200, [RefreshCookie(tokens.value.refreshToken, isProduction)],
                                          AuthBody(AuthResponse(user, tokens.value.accessToken)))))
  {
    match GenerateTokens(jose, settings, now, user.id, false, user.role)
    case Err(e) => Err(e)
    case Ok(tokens) =>
      Ok(Response(Ok200, [RefreshCookie(tokens.refreshToken, isProduction)], AuthBody(AuthResponse(user, tokens.accessToken))))
  }

  /**
   * On success the body's access token and the cookie's refresh token both verify to the
   * user's id and role, never premium, with their own lifetimes.
   */
  lemma {:induction false} AuthSuccessTokensVerify(
    jose: Jose, settings: JwtSettings, isProduction: bool, issuedAt: int, user: User, now: int)
    requires Lawful(jose)
    requires AuthSuccess(jose, settings, isProduction, issuedAt, user).Ok?
    ensures var resp := AuthSuccess(jose, settings, isProduction, issuedAt, user).value;
      && resp.body.AuthBody? && resp.body.auth.user == user && |resp.cookies| == 1
      && resp.cookies[0] == RefreshCookie(resp.cookies[0].value, isProduction)
      && (now - settings.leeway <= AsUsize(issuedAt + settings.accessTtl) ==>
            VerifyJwt(jose, settings.secret, now, settings.leeway, resp.body.auth.accessToken)
            == Some(Claims(user.id, user.role, false, AsUsize(issuedAt + settings.accessTtl))))
      && (now - settings.leeway <= AsUsize(issuedAt + settings.refreshTtl) ==>
            VerifyJwt(jose, settings.secret, now, settings.leeway, resp.cookies[0].value)
            == Some(Claims(user.id, user.role, false, AsUsize(issuedAt + settings.refreshTtl))))
  {
    GeneratedTokensVerify(jose, settings, issuedAt, user.id, false, user.role, now);
  }

  // ---------------------------------------------------------------------------
  // register

  const HashFailureMessage := "Something went wrong on server side"

  /**
   * The first four steps of `register` on the table's state before the call: validate,
   * hash, insert with the fresh id. `Ok` is the user the insert returned.
   */
  function Admit(rows: seq<UserWithPassword>, outage: Option<SqlxError>, hasher: Hasher,
                 isEmail: string -> bool, newId: string, dto: CreateUserDto)
    : (r: Result<User, ApiError>)
    ensures Validate(dto, isEmail).Err? ==> r == Err(Validation(Validate(dto, isEmail).error))
    ensures Validate(dto, isEmail).Ok? && hasher.hash(dto.password).None? ==>
      r == Err(InternalServer(HashFailureMessage))
    ensures Validate(dto, isEmail).Ok? && hasher.hash(dto.password).Some? ==>
      var inserted := InsertOutcome(rows, outage, dto.username, dto.email, hasher.hash(dto.password).value, newId);
      && (inserted.Err? ==> r == Err(FromSqlx(inserted.error)))
      && (inserted.Ok? ==> r == Ok(inserted.value))
    ensures r.Ok? ==> r.value == Users.User(newId, dto.username, dto.email, DefaultRole)
  {
    match Validate(dto, isEmail)
    case Err(errors) => Err(Validation(errors))
    case Ok(_) =>
      match hasher.hash(dto.password)
      case None => Err(InternalServer(HashFailureMessage))
      case Some(passwordHash) =>
        match InsertOutcome(rows, outage, dto.username, dto.email, passwordHash, newId)
        case Err(e) => Err(FromSqlx(e))
        case Ok(user) => Ok(user)
  }

  /**
   * `register`: validates, hashes, inserts a row holding the hash (never the password),
   * then answers through the shared success path. A failure before the insert leaves the
   * table alone; a token failure after it leaves the new row in place.
   */
  method Register(store: UserStore, jose: Jose, settings: JwtSettings, isProduction: bool, now: int,
                  hasher: Hasher, isEmail: string -> bool, newId: string, dto: CreateUserDto)
    returns (r: Result<Response, ApiError>)
    requires store.Valid()
    modifies store
    ensures store.Valid() && store.outage == old(store.outage)
    ensures var admitted := Admit(old(store.rows), old(store.outage), hasher, isEmail, newId, dto);
      && (admitted.Err? ==> r == Err(admitted.error) && store.rows == old(store.rows))
      && (admitted.Ok? ==>
            store.rows == old(store.rows) + [WithPassword(admitted.value, hasher.hash(dto.password).value)]
            && r == AuthSuccess(jose, settings, isProduction, now, admitted.value))
  {
    var valid := Validate(dto, isEmail);
    if valid.Err? {
      return Err(Validation(valid.error));
    }
    var passwordHash := hasher.hash(dto.password);
    if passwordHash.None? {
      return Err(InternalServer(HashFailureMessage));
    }
    var inserted := store.Insert(dto.username, dto.email, passwordHash.value, newId);
    if inserted.Err? {
      return Err(FromSqlx(inserted.error));
    }
    r := AuthSuccess(jose, settings, isProduction, now, inserted.value);
  }

  /** Registering a username or email that is already stored reports 409 naming the column. */
  lemma {:induction false} DuplicateRegistrationIsConflict(
    rows: seq<UserWithPassword>, hasher: Hasher, isEmail: string -> bool, newId: string, dto: CreateUserDto)
    requires Validate(dto, isEmail).Ok? && hasher.hash(dto.password).Some?
    requires !IdTaken(rows, newId)
    requires UsernameTaken(rows, dto.username) || EmailTaken(rows, dto.email)
    ensures var r := Admit(rows, None, hasher, isEmail, newId, dto);
      && r.Err? && StatusCode(r.error) == Conflict409
      && (UsernameTaken(rows, dto.username) ==> r.error == UniqueViolation("username"))
      && (!UsernameTaken(rows, dto.username) ==> r.error == UniqueViolation("email"))
  {
    ExtractFromConstraintName("users", "username");
    assert "users_username_key" == "users" + "_" + "username" + KeySuffix;
    ExtractFromConstraintName("users", "email");
    assert "users_email_key" == "users" + "_" + "email" + KeySuffix;
  }

  // ---------------------------------------------------------------------------
  // login

  const CompareFailureMessage := "Error when tried to compare passwords"
  const IncorrectPasswordMessage := "Incorrect Password"

  /**
   * `login`: looks the user up by username or email, checks the password against the
   * stored hash, then answers through the shared success path with the public user.
   */
  function Login(store: UserStore, jose: Jose, settings: JwtSettings, isProduction: bool, now: int,
                 hasher: Hasher, dto: LoginDto)
    : (r: Result<Response, ApiError>)
    reads store
    ensures var found := CheckUserExists(store.rows, store.outage, dto.usernameOrEmail);
      && (found.Err? ==> r == Err(found.error))
      && (found.Ok? && hasher.verify(dto.password, found.value.password).None? ==>
            r == Err(Other(CompareFailureMessage)))
      && (found.Ok? && hasher.verify(dto.password, found.value.password) == Some(false) ==>
            r == Err(Other(IncorrectPasswordMessage)))
      && (found.Ok? && hasher.verify(dto.password, found.value.password) == Some(true) ==>
            r == AuthSuccess(jose, settings, isProduction, now, FromUserWithPassword(found.value)))
  {
    match CheckUserExists(store.rows, store.outage, dto.usernameOrEmail)
    case Err(e) => Err(e)
    case Ok(user) =>
      match hasher.verify(dto.password, user.password)
      case None => Err(Other(CompareFailureMessage))
      case Some(false) => Err(Other(IncorrectPasswordMessage))
      case Some(true) => AuthSuccess(jose, settings, isProduction, now, FromUserWithPassword(user))
  }

  /**
   * A successful login answers for a stored row that matches the identifier and whose
   * hash the password verified against, and its access token carries that row's id and
   * role, never premium.
   */
  lemma {:induction false} LoginAnswersForStoredUser(
    store: UserStore, jose: Jose, settings: JwtSettings, isProduction: bool, issuedAt: int,
    hasher: Hasher, dto: LoginDto, now: int)
    requires Lawful(jose)
    requires Login(store, jose, settings, isProduction, issuedAt, hasher, dto).Ok?
    requires now - settings.leeway <= AsUsize(issuedAt + settings.accessTtl)
    ensures var resp := Login(store, jose, settings, isProduction, issuedAt, hasher, dto).value;
      && resp.body.AuthBody?
      && exists row :: row in store.rows && Matches(row, dto.usernameOrEmail)
           && hasher.verify(dto.password, row.password) == Some(true)
           && resp.body.auth.user == FromUserWithPassword(row)
           && VerifyJwt(jose, settings.secret, now, settings.leeway, resp.body.auth.accessToken)
              == Some(Claims(row.id, row.role, false, AsUsize(issuedAt + settings.accessTtl)))
  {
    var row := CheckUserExists(store.rows, store.outage, dto.usernameOrEmail).value;
    AuthSuccessTokensVerify(jose, settings, isProduction, issuedAt, FromUserWithPassword(row), now);
  }

  /** A wrong password is answered with 400, not 401, and says so. */
  lemma WrongPasswordIsBadRequest(
    store: UserStore, jose: Jose, settings: JwtSettings, isProduction: bool, now: int, hasher: Hasher, dto: LoginDto)
    requires CheckUserExists(store.rows, store.outage, dto.usernameOrEmail).Ok?
    requires hasher.verify(dto.password, CheckUserExists(store.rows, store.outage, dto.usernameOrEmail).value.password)
             == Some(false)
    ensures var r := Login(store, jose, settings, isProduction, now, hasher, dto);
      r.Err? && StatusCode(r.error) == BadRequest400 && Message(r.error) == "Incorrect Password"
  {
  }

  /** An identifier no row matches yields 404 `User <identifier> not found`. */
  lemma UnknownUserIsNotFound(
    store: UserStore, jose: Jose, settings: JwtSettings, isProduction: bool, now: int, hasher: Hasher, dto: LoginDto)
    requires store.outage.None?
    requires forall row :: row in store.rows ==> !Matches(row, dto.usernameOrEmail)
    ensures var r := Login(store, jose, settings, isProduction, now, hasher, dto);
      r == Err(NotFound("User " + dto.usernameOrEmail + " not found")) && StatusCode(r.error) == NotFound404
  {
  }
}
