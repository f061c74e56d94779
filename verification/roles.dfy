/**
 * User roles and the claims a token carries (src/models/auth.rs).
 */
module Roles {
  import opened Wrappers

  /** The closed set of roles; there is no guest role. */
  datatype UserRole = User | Admin {
    /** `UserRole::is_admin` */
    predicate IsAdmin(): (b: bool)
      ensures b <==> this == Admin
    {
      Admin?
    }

    /** `UserRole::is_user` */
    predicate IsUser(): (b: bool)
      ensures b <==> this == User
    {
      User?
    }
  }

  /** Each role answers exactly one of the two predicates, and each predicate names one role. */
  lemma RoleIsExactlyOne(r: UserRole)
    ensures r.IsAdmin() != r.IsUser()
    ensures r.IsAdmin() <==> r == Admin
    ensures r.IsUser() <==> r == User
  {
  }

  /** Name of a role in the database enum `user_role` (renamed to upper case). */
  function DatabaseName(r: UserRole): string
  {
    match r
    case User => "USER"
    case Admin => "ADMIN"
  }

  /** Reads a `user_role` value back; anything else is not a role. */
  function ParseDatabaseName(name: string): (r: Option<UserRole>)
    ensures forall role: UserRole :: r == Some(role) <==> DatabaseName(role) == name
  {
    if name == "USER" then Some(User)
    else if name == "ADMIN" then Some(Admin)
    else None
  }

  /** Name of a role in JSON (serde's default: the variant name). */
  function JsonName(r: UserRole): string
  {
    match r
    case User => "User"
    case Admin => "Admin"
  }

  /** Reads a JSON role name back; anything else is not a role. */
  function ParseJsonName(name: string): (r: Option<UserRole>)
    ensures forall role: UserRole :: r == Some(role) <==> JsonName(role) == name
  {
    if name == "User" then Some(User)
    else if name == "Admin" then Some(Admin)
    else None
  }

  /** Both encodings round-trip, and the two never agree on a name. */
  lemma RoleNamesRoundTrip(r: UserRole)
    ensures ParseDatabaseName(DatabaseName(r)) == Some(r)
    ensures ParseJsonName(JsonName(r)) == Some(r)
    ensures ParseDatabaseName(JsonName(r)) == None
    ensures ParseJsonName(DatabaseName(r)) == None
  {
  }

  /** 2^64: the range of Rust's `usize` on the 64-bit targets the service runs on. */
  const UsizeModulus: int := 0x1_0000_0000_0000_0000

  type Usize = x: int | 0 <= x < UsizeModulus

  /** Rust's `x as usize` applied to a (wrapped) 64-bit signed sum: reduction modulo 2^64. */
  function AsUsize(x: int): (u: Usize)
    ensures 0 <= x < UsizeModulus ==> u == x
    ensures x < 0 && -UsizeModulus <= x ==> u == x + UsizeModulus
    ensures (x - u) % UsizeModulus == 0
  {
    x % UsizeModulus
  }

  /** The signed payload: subject, role, premium flag and expiry in Unix seconds. */
  datatype Claims = Claims(sub: string, role: UserRole, isPremium: bool, exp: Usize)
}
