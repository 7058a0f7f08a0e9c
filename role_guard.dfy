/** The `authorize(...roles)` middleware: without an authenticated user the
    request is refused with 401, a role outside the allowed list with 403,
    and otherwise it passes on to the handler without a response. */
module RoleGuard {
  import opened Common

  /** What the middleware does with a request: pass it on (`next()`), or
      answer it itself. */
  datatype Decision = Next | Reject(status: nat, message: string)

  /** The role names joined with ", ", as `allowedRoles.join(', ')`. */
  function JoinRoles(roles: seq<Role>): string {
    if roles == [] then ""
    else if |roles| == 1 then RoleName(roles[0])
    else RoleName(roles[0]) + ", " + JoinRoles(roles[1..])
  }

  function Authorize(allowed: seq<Role>, user: Option<Caller>): (d: Decision)
    ensures user.None? ==> d == Reject(UNAUTHORIZED, "Not authenticated")
    ensures user.Some? ==> (d == Next <==> user.value.role in allowed)
    ensures user.Some? && user.value.role !in allowed ==> d.Reject? && d.status == FORBIDDEN
  {
    if user.None? then Reject(UNAUTHORIZED, "Not authenticated")
    else if user.value.role !in allowed then
      Reject(FORBIDDEN, "Access denied. Your role '" + RoleName(user.value.role) +
                        "' is not authorized. Required roles: " + JoinRoles(allowed))
    else Next
  }

  /** An empty list of allowed roles lets nobody through. */
  lemma EmptyListRejectsAll(user: Option<Caller>)
    ensures Authorize([], user).Reject?
    ensures user.Some? ==> Authorize([], user).status == FORBIDDEN
  {
  }

  /** What a single-role gate establishes for the handler behind it: a
      request that passes `authorize(r)` comes from a user holding `r`. */
  lemma SingleRoleGate(r: Role, user: Option<Caller>)
    ensures Authorize([r], user) == Next <==> user.Some? && user.value.role == r
  {
  }

  /** The decision depends on the allowed roles as a set: order and
      repetition in the list do not matter for who passes. */
  lemma DecisionBySet(allowed: seq<Role>, other: seq<Role>, user: Option<Caller>)
    requires forall r :: r in allowed <==> r in other
    ensures (Authorize(allowed, user) == Next) == (Authorize(other, user) == Next)
    ensures Authorize(allowed, user).Reject? ==> Authorize(allowed, user).status == Authorize(other, user).status
  {
  }
}
