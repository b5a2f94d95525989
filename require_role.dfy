/** src/middleware/requireRole.ts: a role allow-list check. */
module RolePermission {
  import opened Types

  const MsgActionDenied := "You do not have permission to perform this action"

  /** `allowedRoles.includes(user.role)` */
  function RequireRole(user: AuthenticatedUser, allowedRoles: seq<Role>): (d: Decision)
    ensures d.Allowed? <==> user.role in allowedRoles
    ensures d.Denied? ==> d.message == MsgActionDenied
  {
    if user.role in allowedRoles then Allowed else Denied(MsgActionDenied)
  }

  /** An empty allow-list denies everybody. */
  lemma EmptyListDeniesAll(user: AuthenticatedUser)
    ensures RequireRole(user, []) == Denied(MsgActionDenied)
  {
  }

  /** Widening the allow-list never turns a pass into a denial. */
  lemma Monotonic(user: AuthenticatedUser, allowed: seq<Role>, wider: seq<Role>)
    requires forall r :: r in allowed ==> r in wider
    requires RequireRole(user, allowed) == Allowed
    ensures RequireRole(user, wider) == Allowed
  {
  }
}
