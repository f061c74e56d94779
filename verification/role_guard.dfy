/**
 * The route guard (src/entities/auth/guards/role_guard.rs): admits a request only when
 * `Claims` sit in its data extensions with exactly the required role.
 */
module Guards {
  import opened Wrappers
  import opened Roles
  import opened Http
  import opened Jwt
  import JwtAuth

  datatype RoleGuard = RoleGuard(requiredRole: UserRole)

  /** `RoleGuard::check`: claims present and role equal; subject, flag and expiry play no part. */
  function Check(guard: RoleGuard, req: Request): (ok: bool)
    ensures ok <==> req.claims.Some? && req.claims.value.role == guard.requiredRole
  {
    match req.claims
    case Some(claims) => claims.role == guard.requiredRole
    case None => false
  }

  /** There is no hierarchy: an admin fails a user guard and a user fails an admin guard. */
  lemma NoRoleHierarchy(req: Request)
    requires req.claims.Some?
    ensures req.claims.value.role == Admin ==> !Check(RoleGuard(User), req)
    ensures req.claims.value.role == User ==> !Check(RoleGuard(Admin), req)
  {
  }

  /**
   * The gate never attaches claims, so a guard consulted behind it, on a request that
   * arrived without claims, refuses even when the token was valid.
   */
  lemma GuardRefusesBehindGate(guard: RoleGuard, jose: Jose, settings: JwtSettings, now: int, req: Request)
    requires req.claims.None?
    ensures JwtAuth.Call((r: Request) => Ok(Check(guard, r)), jose, settings, now, req).Ok? ==>
      JwtAuth.Call((r: Request) => Ok(Check(guard, r)), jose, settings, now, req) == Ok(false)
  {
  }
}
