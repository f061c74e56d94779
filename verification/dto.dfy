/**
 * Request and response records of the authentication endpoints
 * (src/entities/auth/dto.rs) and the registration input's validation rules.
 */
module Dto {
  import opened Wrappers
  import opened ApiErrors
  import Users

  /** The registration input. */
  datatype CreateUserDto = CreateUserDto(username: string, password: string, email: string)

  /** The login input; it carries no validation rules. */
  datatype LoginDto = LoginDto(usernameOrEmail: string, password: string)

  /** The body of a successful login or registration: the public user and the access token only. */
  datatype AuthResponse = AuthResponse(user: Users.User, accessToken: string)

  /** An access token and a refresh token, minted together. */
  datatype Tokens = Tokens(accessToken: string, refreshToken: string)

  const UsernameMessage := "Name length must be more than 3 chars, but less than 20 chars"
  const PasswordMessage := "Password length must be more than 6 chars"
  const EmailMessage := "Incorrect email"

  /** `length(min = 3, max = 20)`: lengths count characters, bounds are inclusive. */
  predicate UsernameValid(username: string)
  {
    3 <= |username| <= 20
  }

  /** `length(min = 6)`. */
  predicate PasswordValid(password: string)
  {
    |password| >= 6
  }

  /** The rules that fail for `dto`, keyed by field name; `isEmail` is the validator's email check. */
  function FieldErrors(dto: CreateUserDto, isEmail: string -> bool): (errors: ValidationErrors)
    ensures "username" in errors <==> !UsernameValid(dto.username)
    ensures "password" in errors <==> !PasswordValid(dto.password)
    ensures "email" in errors <==> !isEmail(dto.email)
    ensures errors.Keys <= {"username", "password", "email"}
    ensures "username" in errors ==> errors["username"] == ValidationError("length", UsernameMessage)
    ensures "password" in errors ==> errors["password"] == ValidationError("length", PasswordMessage)
    ensures "email" in errors ==> errors["email"] == ValidationError("email", EmailMessage)
  {
    var u: ValidationErrors :=
      if UsernameValid(dto.username) then map[] else map["username" := ValidationError("length", UsernameMessage)];
    var p: ValidationErrors :=
      if PasswordValid(dto.password) then map[] else map["password" := ValidationError("length", PasswordMessage)];
    var e: ValidationErrors :=
      if isEmail(dto.email) then map[] else map["email" := ValidationError("email", EmailMessage)];
    u + p + e
  }

  /** `CreateUserDto::validate`: passes iff all three field rules pass; otherwise reports each failure. */
  function Validate(dto: CreateUserDto, isEmail: string -> bool): (r: Result<(), ValidationErrors>)
    ensures r.Ok? <==> UsernameValid(dto.username) && PasswordValid(dto.password) && isEmail(dto.email)
    ensures r.Err? ==> r.error == FieldErrors(dto, isEmail) && |r.error| > 0
  {
    var errors := FieldErrors(dto, isEmail);
    if errors == map[] then Ok(()) else Err(errors)
  }

  /** The length bounds are inclusive: three and twenty characters pass, two and twenty-one do not. */
  lemma UsernameBoundsInclusive(username: string)
    ensures |username| == 3 || |username| == 20 ==> UsernameValid(username)
    ensures |username| == 2 || |username| == 21 ==> !UsernameValid(username)
  {
  }
}
