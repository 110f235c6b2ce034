/**
 * The route tables of the five route files under `backend/routes`: which endpoints run `protect`, and which
 * role list each one hands to `authorize`.
 */
module Routes {
  import opened Wrappers
  import opened AuthGate
  import opened UserModel
  import Roles

  datatype Endpoint =
    // userRoutes.js
    | ListUsers | CreateUser | GetUser | UpdateUser | DeleteUser
    // policyRoutes.js
    | ListPolicies | CreatePolicy | GetPolicy | UpdatePolicy | DeletePolicy
    // alertRoutes.js
    | ListAlerts | CreateAlert | GetAlert | UpdateAlert | DeleteAlert
    // incidentRoutes.js
    | ListIncidents | CreateIncident | GetIncident | UpdateIncident | DeleteIncident | AddIncidentComment
    // authRoutes.js; the raw reset token travels as the `:resettoken` path parameter
    | Register | Login | Me | ForgotPassword | ResetPassword(resetToken: string)

  /** The middleware placed in front of a handler. */
  datatype Guard =
    | Open
    | ProtectOnly
    | ProtectThenAuthorize(roles: seq<string>)

  const AdminRoles: seq<string> := [Roles.Admin, Roles.SuperAdmin]
  const PolicyReaders: seq<string> := [Roles.Analyst, Roles.Admin, Roles.SuperAdmin]
  const AlertHandlers: seq<string> := [Roles.Analyst, Roles.IncidentResponder, Roles.Admin, Roles.SuperAdmin]
  const AlertCreators: seq<string> := [Roles.Admin, Roles.SuperAdmin, Roles.System]
  /** `incidentManagementRoles` */
  const IncidentManagementRoles: seq<string> := [Roles.IncidentResponder, Roles.Analyst, Roles.Admin, Roles.SuperAdmin]

  /** The method and the path of an endpoint, relative to its router. */
  function RouteOf(e: Endpoint): (string, string) {
    match e
    case ListUsers => ("GET", "/")
    case CreateUser => ("POST", "/")
    case GetUser => ("GET", "/:id")
    case UpdateUser => ("PUT", "/:id")
    case DeleteUser => ("DELETE", "/:id")
    case ListPolicies => ("GET", "/")
    case CreatePolicy => ("POST", "/")
    case GetPolicy => ("GET", "/:id")
    case UpdatePolicy => ("PUT", "/:id")
    case DeletePolicy => ("DELETE", "/:id")
    case ListAlerts => ("GET", "/")
    case CreateAlert => ("POST", "/")
    case GetAlert => ("GET", "/:id")
    case UpdateAlert => ("PUT", "/:id")
    case DeleteAlert => ("DELETE", "/:id")
    case ListIncidents => ("GET", "/")
    case CreateIncident => ("POST", "/")
    case GetIncident => ("GET", "/:id")
    case UpdateIncident => ("PUT", "/:id")
    case DeleteIncident => ("DELETE", "/:id")
    case AddIncidentComment => ("POST", "/:id/comments")
    case Register => ("POST", "/register")
    case Login => ("POST", "/login")
    case Me => ("GET", "/me")
    case ForgotPassword => ("POST", "/forgotpassword")
    case ResetPassword(token) => ("PUT", "/resetpassword/" + token)
  }

  function GuardOf(e: Endpoint): Guard {
    match e
    case ListUsers | CreateUser | GetUser | UpdateUser | DeleteUser => ProtectThenAuthorize(AdminRoles)
    case ListPolicies | GetPolicy => ProtectThenAuthorize(PolicyReaders)
    case CreatePolicy | UpdatePolicy | DeletePolicy => ProtectThenAuthorize(AdminRoles)
    case ListAlerts | GetAlert | UpdateAlert => ProtectThenAuthorize(AlertHandlers)
    case CreateAlert => ProtectThenAuthorize(AlertCreators)
    case DeleteAlert => ProtectThenAuthorize(AdminRoles)
    case ListIncidents | CreateIncident | GetIncident | UpdateIncident | AddIncidentComment =>
      ProtectThenAuthorize(IncidentManagementRoles)
    case DeleteIncident => ProtectThenAuthorize(AdminRoles)
    case Me => ProtectOnly
    case Register | Login | ForgotPassword | ResetPassword(_) => Open
  }

  /** The middleware chain in front of the handler: `protect` runs first, `authorize` only after it called `next()`. */
  function Admit(g: Guard, header: Option<string>, verify: string -> Verification, users: seq<User>): (r: Outcome)
    ensures g.Open? ==> r == Next
    ensures !g.Open? && ProtectOutcome(header, verify, users).Deny? ==> r == ProtectOutcome(header, verify, users)
    ensures g.ProtectOnly? ==> r == ProtectOutcome(header, verify, users)
    ensures g.ProtectThenAuthorize? && ProtectOutcome(header, verify, users) == Next ==>
      r == Authorize(g.roles, ProtectUser(header, verify, users))
  {
    match g
    case Open => Next
    case ProtectOnly => ProtectOutcome(header, verify, users)
    case ProtectThenAuthorize(roles) =>
      var gate := ProtectOutcome(header, verify, users);
      if gate.Deny? then gate else Authorize(roles, ProtectUser(header, verify, users))
  }

  /** Whether a role may use an endpoint once `protect` let its holder through. */
  predicate Permits(e: Endpoint, role: string) {
    match GuardOf(e)
    case Open => true
    case ProtectOnly => true
    case ProtectThenAuthorize(roles) => role in roles
  }

  /** Every endpoint but the four public auth routes runs `protect` first: no token, 401, whatever the role list. */
  lemma ProtectRunsFirst(e: Endpoint, header: Option<string>, verify: string -> Verification, users: seq<User>)
    requires !GuardOf(e).Open?
    requires !HasToken(header)
    ensures Admit(GuardOf(e), header, verify, users) == Deny(401, NoTokenMessage)
  {
  }

  /** A request reaches a handler exactly when `protect` passes and the caller's role is listed. */
  lemma AdmittedIff(e: Endpoint, header: Option<string>, verify: string -> Verification, users: seq<User>)
    requires GuardOf(e).ProtectThenAuthorize?
    ensures Admit(GuardOf(e), header, verify, users) == Next <==>
      ProtectOutcome(header, verify, users) == Next && Permits(e, ProtectUser(header, verify, users).value.role)
  {
    if ProtectOutcome(header, verify, users) == Next {
      var u := ProtectUser(header, verify, users);
      assert u.Some?;
      if u.value.role == "" {
        assert "" !in GuardOf(e).roles;
      }
    }
  }

  /** User management: all five operations share the one list {Admin, SuperAdmin}. */
  lemma UserRoutesShareOneList(e: Endpoint)
    requires e in {ListUsers, CreateUser, GetUser, UpdateUser, DeleteUser}
    ensures GuardOf(e) == ProtectThenAuthorize([Roles.Admin, Roles.SuperAdmin])
  {
  }

  /** Roles below Admin are refused on every user route. */
  lemma UserRoutesRefuseNonAdmins(e: Endpoint, role: string)
    requires e in {ListUsers, CreateUser, GetUser, UpdateUser, DeleteUser}
    requires role in {Roles.User, Roles.Analyst, Roles.IncidentResponder}
    ensures !Permits(e, role)
  {
  }

  /** Policies: Analyst reads only; User and IncidentResponder are refused everywhere. */
  lemma PolicyRoutePermissions(role: string)
    ensures Permits(ListPolicies, role) <==> role in {Roles.Analyst, Roles.Admin, Roles.SuperAdmin}
    ensures Permits(GetPolicy, role) <==> role in {Roles.Analyst, Roles.Admin, Roles.SuperAdmin}
    ensures Permits(CreatePolicy, role) <==> role in {Roles.Admin, Roles.SuperAdmin}
    ensures Permits(UpdatePolicy, role) <==> role in {Roles.Admin, Roles.SuperAdmin}
    ensures Permits(DeletePolicy, role) <==> role in {Roles.Admin, Roles.SuperAdmin}
  {
  }

  /** Alerts: creation lists 'System', which no account can hold, so only Admin and SuperAdmin create. */
  lemma AlertRoutePermissions(role: string)
    requires Roles.IsUserRole(role)
    ensures Roles.System !in Roles.UserRoles
    ensures Permits(CreateAlert, role) <==> role in {Roles.Admin, Roles.SuperAdmin}
    ensures Permits(DeleteAlert, role) <==> role in {Roles.Admin, Roles.SuperAdmin}
    ensures Permits(ListAlerts, role) == Permits(GetAlert, role) == Permits(UpdateAlert, role)
    ensures Permits(UpdateAlert, role) <==> role != Roles.User
  {
  }

  /** Incidents: deletion is for a strict subset of the roles that manage incidents. */
  lemma IncidentDeleteIsStricter()
    ensures forall r :: Permits(DeleteIncident, r) ==> Permits(UpdateIncident, r)
    ensures Permits(UpdateIncident, Roles.Analyst) && !Permits(DeleteIncident, Roles.Analyst)
  {
  }

  /** Role User is refused on every alert and incident route, and on every policy and user route. */
  lemma PlainUserRefused(e: Endpoint)
    requires !GuardOf(e).Open? && e != Me
    ensures !Permits(e, Roles.User)
  {
  }

  /** `/me` runs `protect` only: any active user of any role gets through. */
  lemma MeAdmitsAnyActiveUser(header: Option<string>, verify: string -> Verification, users: seq<User>)
    requires ProtectOutcome(header, verify, users) == Next
    ensures Admit(GuardOf(Me), header, verify, users) == Next
    ensures ProtectUser(header, verify, users).value.isActive
  {
  }

  /** The reset token is read from the path. */
  lemma ResetTokenInPath(token: string)
    ensures RouteOf(ResetPassword(token)) == ("PUT", "/resetpassword/" + token)
    ensures GuardOf(ResetPassword(token)) == Open
  {
  }
}
