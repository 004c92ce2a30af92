/** The six application roles (`UserRole`, src/contexts/AuthContext.tsx:4). */
module Roles {
  import opened Common

  datatype Role = Admin | ProjectManager | SiteSupervisor | Foreman | Worker | Client

  /** The role's wire name, as stored in `user_roles.role`. */
  function RoleName(r: Role): string
  {
    match r
    case Admin => "admin"
    case ProjectManager => "project_manager"
    case SiteSupervisor => "site_supervisor"
    case Foreman => "foreman"
    case Worker => "worker"
    case Client => "client"
  }

  /** Reads a stored role name back; any other text is no role. */
  function ParseRole(s: string): (r: Option<Role>)
    ensures r.Some? ==> RoleName(r.value) == s
  {
    if s == "admin" then Some(Admin)
    else if s == "project_manager" then Some(ProjectManager)
    else if s == "site_supervisor" then Some(SiteSupervisor)
    else if s == "foreman" then Some(Foreman)
    else if s == "worker" then Some(Worker)
    else if s == "client" then Some(Client)
    else None
  }

  /** Role names are distinct and read back to the role they name. */
  lemma RoleNameRoundTrip(r: Role)
    ensures ParseRole(RoleName(r)) == Some(r)
  {
  }

  lemma RoleNameInjective(a: Role, b: Role)
    ensures RoleName(a) == RoleName(b) ==> a == b
  {
    RoleNameRoundTrip(a);
    RoleNameRoundTrip(b);
  }
}
