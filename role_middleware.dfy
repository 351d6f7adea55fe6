/**
 * The role middleware: after authentication, a route admits only the roles
 * it lists. `None` is `next()`, `Some(e)` is `next(e)`.
 */
module RoleMiddleware {
  import opened Wrappers
  import opened Errors
  import opened Records
  import opened AuthMiddleware

  const NotAuthenticated := "User belum terautentikasi"
  const Denied := "Akses ditolak"

  /** `roleMiddleware(allowedRoles)` applied to `req.user`. */
  function RoleCheck(allowed: seq<Role>, user: Option<AuthUser>): (r: Option<AppError>)
    ensures r.None? <==> (user.Some? && user.value.role in allowed)
    ensures user.None? ==> r == Some(UnauthorizedError(Some(NotAuthenticated)))
    ensures user.Some? && user.value.role !in allowed ==> r == Some(ForbiddenError(Some(Denied)))
  {
    if user.None? then Some(UnauthorizedError(Some(NotAuthenticated)))
    else if user.value.role !in allowed then Some(ForbiddenError(Some(Denied)))
    else None
  }

  /** `adminOnly`. */
  const AdminOnly: seq<Role> := [ADMIN]

  /** `authenticated`: both roles. */
  const Authenticated: seq<Role> := [ADMIN, PETUGAS]

  /** An `adminOnly` route refuses staff with 403 and admits administrators. */
  lemma AdminOnlyAdmits(user: AuthUser)
    ensures RoleCheck(AdminOnly, Some(user)).None? <==> user.role == ADMIN
    ensures user.role == PETUGAS ==> RoleCheck(AdminOnly, Some(user)) == Some(ForbiddenError(Some(Denied)))
  {
  }

  /** Behind `authenticated`, the only refusal left is a missing user. */
  lemma AuthenticatedAdmitsEveryone(user: Option<AuthUser>)
    ensures RoleCheck(Authenticated, user).None? <==> user.Some?
  {
    if user.Some? {
      assert user.value.role == ADMIN || user.value.role == PETUGAS;
    }
  }

  /** Listing more roles never refuses a request a shorter list admits. */
  lemma RoleCheckMonotone(allowed: seq<Role>, wider: seq<Role>, user: Option<AuthUser>)
    requires forall x | x in allowed :: x in wider
    ensures RoleCheck(allowed, user).None? ==> RoleCheck(wider, user).None?
  {
  }

  /**
   * Chained after `authMiddleware`, a route admits a request exactly when
   * the token was accepted and names an allowed role; a refused token is
   * answered by the authentication error and never reaches the role check.
   */
  lemma ChainedAfterAuthentication(header: Option<string>, verify: string -> Result<JwtPayload, Thrown>, allowed: seq<Role>)
    ensures var a := Authenticate(header, verify);
      a.Ok? ==> (RoleCheck(allowed, Some(a.value)).None? <==> verify(header.value[7..]).value.role in allowed)
  {
    var a := Authenticate(header, verify);
    if a.Ok? {
      AcceptedHeader(header, verify);
    }
  }
}
