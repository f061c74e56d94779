/**
 * The service's error taxonomy (src/common/errors/api_error.rs): the error variants,
 * their HTTP statuses and messages, the JSON error body, and the classification of
 * database errors, including the constraint-name pattern `.*_(.+)_key$`.
 */
module ApiErrors {
  import opened Wrappers

  /** One failed field rule, as the validator reports it: a rule code and a message. */
  datatype ValidationError = ValidationError(code: string, message: string)

  /** The validator's `field_errors()`: the failing rule per field name. */
  type ValidationErrors = map<string, ValidationError>

  datatype ApiError =
    | UniqueViolation(field: string)
    | NotFound(msg: string)
    | Unauthorized(msg: string)
    | Validation(errors: ValidationErrors)
    | InternalServer(msg: string)
    | Other(msg: string)

  // ---------------------------------------------------------------------------
  // Display

  const UniquePrefix := "Entity with such "
  const UniqueSuffix := " already exists"
  const ValidationText := "Validation Error"
  const InternalPrefix := "Database error: "

  /** `Display for ApiError`: the `message` of the error body. */
  function Message(e: ApiError): (s: string)
    ensures e.NotFound? || e.Unauthorized? || e.Other? ==> s == e.msg
    ensures e.UniqueViolation? ==> s == UniquePrefix + e.field + UniqueSuffix
    ensures e.Validation? ==> s == ValidationText
    ensures e.InternalServer? ==>
      |s| >= |InternalPrefix| && s[..|InternalPrefix|] == InternalPrefix && s[|InternalPrefix|..] == e.msg
  {
    match e
    case UniqueViolation(field) => UniquePrefix + field + UniqueSuffix
    case NotFound(msg) => msg
    case Unauthorized(msg) => msg
    case Validation(_) => ValidationText
    case InternalServer(msg) => InternalPrefix + msg
    case Other(msg) => msg
  }

  // ---------------------------------------------------------------------------
  // Status codes (section 15 of RFC 9110)

  const Ok200: nat := 200
  const BadRequest400: nat := 400
  const Unauthorized401: nat := 401
  const NotFound404: nat := 404
  const Conflict409: nat := 409
  const InternalServerError500: nat := 500

  /** `ResponseError::status_code`. */
  function StatusCode(e: ApiError): (code: nat)
    ensures code == Conflict409 <==> e.UniqueViolation?
    ensures code == NotFound404 <==> e.NotFound?
    ensures code == Unauthorized401 <==> e.Unauthorized?
    ensures code == BadRequest400 <==> e.Validation? || e.Other?
    ensures code == InternalServerError500 <==> e.InternalServer?
  {
    match e
    case UniqueViolation(_) => Conflict409
    case NotFound(_) => NotFound404
    case Unauthorized(_) => Unauthorized401
    case Validation(_) => BadRequest400
    case InternalServer(_) => InternalServerError500
    case Other(_) => BadRequest400
  }

  /** The canonical reason phrase of the statuses this service produces. */
  function CanonicalReason(code: nat): Option<string>
  {
    if code == Ok200 then Some("OK")
    else if code == BadRequest400 then Some("Bad Request")
    else if code == Unauthorized401 then Some("Unauthorized")
    else if code == NotFound404 then Some("Not Found")
    else if code == Conflict409 then Some("Conflict")
    else if code == InternalServerError500 then Some("Internal Server Error")
    else None
  }

  /** The JSON error body: exactly `code`, `error` and `message`. */
  datatype ErrorResponseBody = ErrorResponseBody(code: nat, error: string, message: string)

  /** What `error_response` sends: a status and a JSON body. */
  datatype ErrorReply = ErrorReply(status: nat, body: ErrorResponseBody)

  /** `ResponseError::error_response`. */
  function ErrorResponse(e: ApiError): (reply: ErrorReply)
    ensures reply.status == StatusCode(e) && reply.body.code == reply.status
    ensures reply.body.message == Message(e)
    ensures CanonicalReason(reply.status).Some? ==> reply.body.error == CanonicalReason(reply.status).value
    ensures CanonicalReason(reply.status).None? ==> reply.body.error == "Error"
  {
    var status := StatusCode(e);
    var reason := match CanonicalReason(status) case Some(r) => r case None => "Error";
    ErrorReply(status, ErrorResponseBody(status, reason, Message(e)))
  }

  /** Every error the service produces has a known reason phrase, so "Error" never appears. */
  lemma ErrorBodyNamesReason(e: ApiError)
    ensures ErrorResponse(e).body.error != "Error"
    ensures ErrorResponse(e).body.error == "Unauthorized" <==> e.Unauthorized?
    ensures ErrorResponse(e).body.error == "Bad Request" <==> e.Validation? || e.Other?
  {
  }

  // ---------------------------------------------------------------------------
  // Constraint names: the regular expression `.*_(.+)_key$`

  const KeySuffix := "_key"

  /** The text ends in `_key`, the only place `_key$` can match. */
  predicate EndsWithKey(s: string)
  {
    |s| >= |KeySuffix| && s[|s| - |KeySuffix|..] == KeySuffix
  }

  /**
   * The pattern matches with the `_` before group 1 at index `i`: group 1 is
   * `s[i+1..|s|-4]`, it is non-empty (`.+`), and it holds no line feed, which `.`
   * does not match. The leading `.*` can always be empty, so nothing else is needed.
   */
  predicate CaptureAt(s: string, i: int)
  {
    EndsWithKey(s) && 0 <= i && i + 1 < |s| - |KeySuffix| && s[i] == '_'
    && '\n' !in s[i + 1..|s| - |KeySuffix|]
  }

  /** The largest match position at or below `i`, scanning leftwards. */
  function LastCaptureAt(s: string, i: int): (r: Option<nat>)
    requires EndsWithKey(s)
    decreases i + 1
    ensures r.Some? ==> r.value <= i && CaptureAt(s, r.value)
    ensures r.Some? ==> forall j :: r.value < j <= i ==> !CaptureAt(s, j)
    ensures r.None? ==> forall j :: j <= i ==> !CaptureAt(s, j)
  {
    if i < 0 then None
    else if CaptureAt(s, i) then Some(i)
    else LastCaptureAt(s, i - 1)
  }

  /**
   * Where group 1 starts, minus one, under leftmost-first semantics: the greedy
   * `.*` takes as much as it can, so the last possible `_` wins.
   */
  function CaptureIndex(s: string): (r: Option<nat>)
    ensures r.Some? ==> CaptureAt(s, r.value)
    ensures forall j :: CaptureAt(s, j) ==> r.Some? && j <= r.value
  {
    if EndsWithKey(s) then LastCaptureAt(s, |s| - |KeySuffix| - 2) else None
  }

  /** `extract_field_from_constraint`: group 1 of `.*_(.+)_key$`, or "field" without a match. */
  function ExtractFieldFromConstraint(constraint: string): (field: string)
    ensures CaptureIndex(constraint).None? ==> field == "field"
    ensures CaptureIndex(constraint).Some? ==>
      field == constraint[CaptureIndex(constraint).value + 1..|constraint| - |KeySuffix|]
    ensures |field| > 0
  {
    match CaptureIndex(constraint)
    case Some(i) => constraint[i + 1..|constraint| - |KeySuffix|]
    case None => "field"
  }

  /**
   * The extracted segment follows the last underscore that leaves it non-empty:
   * the only underscore it may contain is its own final character.
   */
  lemma {:induction false} CaptureFollowsLastUnderscore(s: string)
    requires CaptureIndex(s).Some?
    ensures var f := ExtractFieldFromConstraint(s); forall k :: 0 <= k < |f| - 1 ==> f[k] != '_'
  {
    var i := CaptureIndex(s).value;
    var f := ExtractFieldFromConstraint(s);
    forall k | 0 <= k < |f| - 1
      ensures f[k] != '_'
    {
      if f[k] == '_' {
        var j := i + 1 + k;
        assert s[j] == '_';
        assert s[j + 1..|s| - |KeySuffix|] == f[k + 1..];
        assert CaptureAt(s, j);
        assert false;
      }
    }
  }

  /**
   * A name built the way PostgreSQL names a unique constraint, `<table>_<column>_key`,
   * gives back its column whenever the column has no underscore and no line feed.
   */
  lemma {:induction false} ExtractFromConstraintName(table: string, column: string)
    requires |column| > 0 && '_' !in column && '\n' !in column
    ensures ExtractFieldFromConstraint(table + "_" + column + KeySuffix) == column
  {
    var s := table + "_" + column + KeySuffix;
    var i := |table|;
    assert s[i] == '_';
    assert s[i + 1..|s| - |KeySuffix|] == column;
    assert s[|s| - |KeySuffix|..] == KeySuffix;
    assert CaptureAt(s, i);
  }

  /** Two typical constraint names, and a primary key, which does not match. */
  lemma ConstraintExamples()
    ensures ExtractFieldFromConstraint("users_email_key") == "email"
    ensures ExtractFieldFromConstraint("users_first_name_key") == "name"
    ensures ExtractFieldFromConstraint("users_pkey") == "field"
  {
    assert "users_email_key" == "users" + "_" + "email" + KeySuffix;
    ExtractFromConstraintName("users", "email");
    assert "users_first_name_key" == "users_first" + "_" + "name" + KeySuffix;
    ExtractFromConstraintName("users_first", "name");
    assert !EndsWithKey("users_pkey");
  }

  // ---------------------------------------------------------------------------
  // Database errors (`From<sqlx::Error>`)

  /** PostgreSQL's SQLSTATE for unique_violation. */
  const UniqueViolationCode := "23505"

  /** The text `sqlx::Error::RowNotFound` displays. */
  const RowNotFoundText := "no rows returned by a query that expected to return at least one row"

  /**
   * The sqlx errors the core can see: no row, a database error with its SQLSTATE,
   * optional constraint and the server's message, and every other failure by its text.
   */
  datatype SqlxError =
    | RowNotFound
    | Database(code: string, constraint: Option<string>, text: string)
    | Failure(text: string)

  /** The prefix `sqlx::Error::Database` puts before the server's message when displayed. */
  const DatabaseTextPrefix := "error returned from database: "

  /** `sqlx::Error`'s `to_string()`. */
  function SqlxText(e: SqlxError): string
  {
    match e
    case RowNotFound => RowNotFoundText
    case Database(_, _, text) => DatabaseTextPrefix + text
    case Failure(text) => text
  }

  /** `From<sqlx::Error> for ApiError`. */
  function FromSqlx(e: SqlxError): (r: ApiError)
    ensures r.UniqueViolation? <==>
      e.Database? && e.code == UniqueViolationCode && e.constraint.Some?
    ensures r.UniqueViolation? ==> r.field == ExtractFieldFromConstraint(e.constraint.value)
    ensures !r.UniqueViolation? ==> r == InternalServer(SqlxText(e))
  {
    match e
    case Database(code, constraint, _) =>
      if code == UniqueViolationCode && constraint.Some? then
        UniqueViolation(ExtractFieldFromConstraint(constraint.value))
      else
        InternalServer(SqlxText(e))
    case _ => InternalServer(SqlxText(e))
  }

  /** A duplicate on a `<table>_<column>_key` constraint reports 409 naming the column. */
  lemma DuplicateColumnIsConflict(table: string, column: string, text: string)
    requires |column| > 0 && '_' !in column && '\n' !in column
    ensures var e := FromSqlx(Database(UniqueViolationCode, Some(table + "_" + column + KeySuffix), text));
      e == UniqueViolation(column) && StatusCode(e) == Conflict409
      && Message(e) == "Entity with such " + column + " already exists"
  {
    ExtractFromConstraintName(table, column);
  }
}
