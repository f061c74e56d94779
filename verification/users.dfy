/**
 * The user records (src/models/user.rs): the stored row with its password hash,
 * and the public projection that leaves the hash behind.
 */
module Users {
  import Roles

  /** The public view of a user; it has no password field at all. */
  datatype User = User(id: string, username: string, email: string, role: Roles.UserRole)

  /** A row of the `users` table as the lookup reads it, hash included. */
  datatype UserWithPassword = UserWithPassword(
    id: string, username: string, password: string, email: string, role: Roles.UserRole)

  /** `From<UserWithPassword> for User`: total, keeps every public field, drops the hash. */
  function FromUserWithPassword(u: UserWithPassword): (p: User)
    ensures p.id == u.id && p.username == u.username
    ensures p.email == u.email && p.role == u.role
  {
    User(u.id, u.username, u.email, u.role)
  }

  /** Puts a hash back beside the public fields (the row an insert stores). */
  function WithPassword(p: User, password: string): (u: UserWithPassword)
    ensures u.password == password
    ensures FromUserWithPassword(u) == p
  {
    UserWithPassword(p.id, p.username, password, p.email, p.role)
  }

  /** The projection forgets the password and nothing else. */
  lemma ProjectionForgetsOnlyPassword(u: UserWithPassword)
    ensures WithPassword(FromUserWithPassword(u), u.password) == u
  {
  }

  /** Two rows that differ only in their hashes project to the same public user. */
  lemma ProjectionIgnoresPassword(u: UserWithPassword, v: UserWithPassword)
    requires u.id == v.id && u.username == v.username && u.email == v.email && u.role == v.role
    ensures FromUserWithPassword(u) == FromUserWithPassword(v)
  {
  }
}
