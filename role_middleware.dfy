/** `authorize(...roles)`: the gate placed in front of a route. */
module RoleMiddleware {
  import opened Wrappers
  import opened Http

  const Forbidden: Failure := Reply(403, "Forbidden: insufficient permissions")

  /** The roles bound to the status-change and assignment routes. */
  const StaffRoles: seq<Role> := [Agent, Admin]

  /** `None` is `next()`: the request goes on unchanged; otherwise the 403 reply. */
  function Authorize(roles: seq<Role>, caller: Claims): (r: Option<Failure>)
    ensures r.None? <==> caller.role in roles
    ensures r.Some? ==> r.value == Forbidden
  {
    if caller.role !in roles then Some(Forbidden) else None
  }

  /** Behind the staff gate a customer is always turned away and staff always pass. */
  lemma StaffGate(caller: Claims)
    ensures Authorize(StaffRoles, caller).Some? <==> caller.role == Customer
  {
  }
}
