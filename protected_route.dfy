/** The route guard of src/components/ProtectedRoute.tsx: a chain of early
    returns over the session snapshot, the current pathname and an optional
    `requiredRole` prop. The role is an explicit input (`profile?.role`),
    `None` when there is no profile or the profile has no role. */
module ProtectedRoute {
  import opened Common
  import opened Roles

  datatype GuardResult =
    | ShowLoading            // the spinner placeholder
    | RedirectTo(target: string)
    | RenderChildren

  const LoginPath := "/login"
  const DashboardPath := "/dashboard"
  const MyTasksPath := "/tasks/my"
  const TimesheetPath := "/timesheet"

  /** `!profile?.role || !['worker', 'foreman'].includes(profile.role)`. */
  predicate FieldRoleDenied(role: Option<Role>)
  {
    role.None? || !(role.value == Worker || role.value == Foreman)
  }

  /** `requiredRole && profile?.role !== requiredRole`: an empty string is
      falsy and disables the check; an absent role never equals a given one. */
  predicate RequiredRoleDenied(role: Option<Role>, requiredRole: Option<string>)
  {
    requiredRole.Some? && requiredRole.value != ""
    && (role.None? || RoleName(role.value) != requiredRole.value)
  }

  /** The decision `ProtectedRoute` renders. */
  function Guard(isLoading: bool, hasUser: bool, role: Option<Role>, pathname: string,
                 requiredRole: Option<string>): (r: GuardResult)
    // While the session is loading no redirect decision is made.
    ensures isLoading <==> r == ShowLoading
    // The only redirect targets are the login page and the dashboard.
    ensures r.RedirectTo? ==> r.target == LoginPath || r.target == DashboardPath
    // Loaded without a user: always to the login page, whatever the role.
    ensures !isLoading && !hasUser ==> r == RedirectTo(LoginPath)
    ensures r == RedirectTo(LoginPath) <==> !isLoading && !hasUser
    // Content is rendered exactly when no condition of the chain fires.
    ensures r == RenderChildren <==>
              !isLoading && hasUser
              && !((pathname == MyTasksPath || pathname == TimesheetPath) && FieldRoleDenied(role))
              && !RequiredRoleDenied(role, requiredRole)
  {
    if isLoading then ShowLoading
    else if !hasUser then RedirectTo(LoginPath)
    else if pathname == MyTasksPath && FieldRoleDenied(role) then RedirectTo(DashboardPath)
    else if pathname == TimesheetPath && FieldRoleDenied(role) then RedirectTo(DashboardPath)
    else if RequiredRoleDenied(role, requiredRole) then RedirectTo(DashboardPath)
    else RenderChildren
  }

  /** On exactly `/tasks/my` or `/timesheet`, a logged-in user reaches the
      content only as a worker or foreman (given no `requiredRole`). */
  lemma FieldPagesOnlyForWorkersAndForemen(hasUser: bool, role: Option<Role>, pathname: string)
    requires pathname == MyTasksPath || pathname == TimesheetPath
    requires hasUser
    ensures Guard(false, hasUser, role, pathname, None) == RenderChildren
            <==> role == Some(Worker) || role == Some(Foreman)
    ensures Guard(false, hasUser, role, pathname, None) != RenderChildren
            ==> Guard(false, hasUser, role, pathname, None) == RedirectTo(DashboardPath)
  {
  }

  /** A given, non-empty `requiredRole` admits exactly the role of that name. */
  lemma RequiredRoleAdmitsOnlyThatRole(role: Option<Role>, pathname: string, required: Role)
    requires pathname != MyTasksPath && pathname != TimesheetPath
    ensures Guard(false, true, role, pathname, Some(RoleName(required))) == RenderChildren
            <==> role == Some(required)
  {
    if role.Some? { RoleNameInjective(role.value, required); }
  }

  /** Gating compares whole pathnames: any other path without `requiredRole`
      renders for every logged-in user, including one without a role. */
  lemma OtherPathsRenderForAnyUser(role: Option<Role>, pathname: string)
    requires pathname != MyTasksPath && pathname != TimesheetPath
    ensures Guard(false, true, role, pathname, None) == RenderChildren
  {
  }

  /** For instance the trailing-slash spelling of the worker page is not gated. */
  lemma TrailingSlashIsNotGated()
    ensures Guard(false, true, Some(Admin), "/tasks/my/", None) == RenderChildren
    ensures Guard(false, true, None, "/timesheet/", None) == RenderChildren
  {
  }
}
