/** The account roles of the user schema's `role` enum, and the one extra name the alert routes list. */
module Roles {
  const User := "User"
  const Analyst := "Analyst"
  const IncidentResponder := "IncidentResponder"
  const Admin := "Admin"
  const SuperAdmin := "SuperAdmin"
  /** Listed by the alert-creation route only; no account can hold it. */
  const System := "System"

  /** The `role` enum, in declaration order. */
  const UserRoles: seq<string> := [User, Analyst, IncidentResponder, Admin, SuperAdmin]

  predicate IsUserRole(r: string) {
    r in UserRoles
  }
}
