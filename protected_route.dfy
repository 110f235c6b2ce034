/**
 * The client-side route guard (`frontend/src/components/ProtectedRoute.tsx`): what a page
 * wrapped in it shows, from the signed-in flag and the user record of the authentication state.
 * The router's `location` handed to the redirects is not modelled.
 */
module RouteGuard {
  import opened Wrappers
  import opened AuthSlice
  import UserModel
  import AuthGate

  /** What the guard renders. */
  datatype View = ToLogin | ToDashboard | Children | Outlet

  /** `allowedRoles && allowedRoles.length > 0 && user?.role && !allowedRoles.includes(user.role)` */
  predicate RoleRefused(user: Option<Profile>, allowedRoles: Option<seq<string>>) {
    && allowedRoles.Some? && |allowedRoles.value| > 0
    && user.Some? && user.value.role != ""
    && user.value.role !in allowedRoles.value
  }

  function ProtectedRoute(isAuthenticated: bool, user: Option<Profile>, allowedRoles: Option<seq<string>>, hasChildren: bool): (v: View)
    ensures !isAuthenticated <==> v == ToLogin
    ensures v == ToDashboard <==> isAuthenticated && RoleRefused(user, allowedRoles)
    ensures v == Children <==> isAuthenticated && !RoleRefused(user, allowedRoles) && hasChildren
    ensures v == Outlet <==> isAuthenticated && !RoleRefused(user, allowedRoles) && !hasChildren
  {
    if !isAuthenticated then ToLogin
    else if RoleRefused(user, allowedRoles) then ToDashboard
    else if hasChildren then Children
    else Outlet
  }

  /** Whether the page itself is shown. */
  predicate Renders(v: View) {
    v == Children || v == Outlet
  }

  /** Without a role list, or with an empty one, every signed-in user sees the page. */
  lemma NoRolesAdmitsEveryone(user: Option<Profile>, allowedRoles: Option<seq<string>>, hasChildren: bool)
    requires allowedRoles.None? || allowedRoles.value == []
    ensures Renders(ProtectedRoute(true, user, allowedRoles, hasChildren))
  {
  }

  /**
   * For a user who has a role and a non-empty role list, the guard shows the page exactly when
   * the server's `authorize` would let the same user through.
   */
  lemma AgreesWithAuthorize(u: UserModel.User, p: Profile, roles: seq<string>, hasChildren: bool)
    requires p.role == u.role && u.role != "" && roles != []
    ensures Renders(ProtectedRoute(true, Some(p), Some(roles), hasChildren)) <==> AuthGate.Authorize(roles, Some(u)) == AuthGate.Next
  {
  }

  /**
   * A signed-in user without a role is shown every page, though the server's `authorize`
   * answers 401 for the same list.
   */
  lemma RolelessUserPassesGuard(u: UserModel.User, p: Profile, roles: seq<string>, hasChildren: bool)
    requires p.role == "" && u.role == ""
    ensures Renders(ProtectedRoute(true, Some(p), Some(roles), hasChildren))
    ensures AuthGate.Authorize(roles, Some(u)) == AuthGate.Deny(401, AuthGate.NoRoleMessage)
  {
  }
}
