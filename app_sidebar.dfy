/** The navigation menu of src/components/AppSidebar.tsx: a static table of
    entries, each with the roles allowed to see it, filtered by the current
    role. The role is `profile?.role`, `None` when there is no profile. */
module AppSidebar {
  import opened Common
  import opened Roles
  import ProtectedRoute

  datatype MenuItem = MenuItem(title: string, url: string, roles: seq<Role>)

  const AllRoles: seq<Role> := [Admin, ProjectManager, SiteSupervisor, Foreman, Worker, Client]
  const FieldRoles: seq<Role> := [Worker, Foreman]

  const MenuItems: seq<MenuItem> := [
    MenuItem("Dashboard", "/dashboard", AllRoles),
    MenuItem("Projects", "/projects", [Admin, ProjectManager, SiteSupervisor, Client]),
    MenuItem("Sites", "/sites", [Admin, ProjectManager, SiteSupervisor, Foreman]),
    MenuItem("Tasks", "/tasks", [Admin, ProjectManager, SiteSupervisor, Foreman]),
    MenuItem("My Tasks", "/tasks/my", FieldRoles),
    MenuItem("Today's Tasks", "/tasks/today", FieldRoles),
    MenuItem("Timesheet", "/timesheet", FieldRoles),
    MenuItem("Workforce", "/workforce", [Admin, ProjectManager, SiteSupervisor]),
    MenuItem("Equipment", "/equipment", [Admin, ProjectManager, SiteSupervisor, Foreman]),
    MenuItem("Reports", "/reports", [Admin, ProjectManager, Client]),
    MenuItem("Settings", "/settings", [Admin]),
    MenuItem("Report Incident", "/incidents/new", FieldRoles),
    MenuItem("My Incidents", "/incidents/mine", FieldRoles)
  ]

  /** `profile && item.roles.includes(profile.role)`. */
  predicate Shown(role: Option<Role>, item: MenuItem)
  {
    role.Some? && role.value in item.roles
  }

  function ShownTo(role: Option<Role>): MenuItem -> bool
  {
    item => Shown(role, item)
  }

  /** `filteredItems`. */
  function FilteredItems(role: Option<Role>): (r: seq<MenuItem>)
    ensures IsSubsequence(r, MenuItems)
    ensures forall item :: item in r <==> item in MenuItems && Shown(role, item)
    ensures role.None? ==> r == []
  {
    var r := Filter(MenuItems, ShownTo(role));
    FilterMembers(MenuItems, ShownTo(role));
    FilterIsSubsequence(MenuItems, ShownTo(role));
    assert r != [] ==> r[0] in r;
    r
  }

  /** Dashboard is offered to every role; Settings only to admins. */
  lemma DashboardForAllSettingsForAdmin(role: Role)
    ensures MenuItems[0] in FilteredItems(Some(role))
    ensures MenuItems[10] in FilteredItems(Some(role)) <==> role == Admin
  {
    MenuRoles();
    assert role in AllRoles;
    assert role in [Admin] <==> role == Admin;
    var dashboard, settings := MenuItems[0], MenuItems[10];
    assert dashboard in MenuItems && settings in MenuItems;
  }

  /** A worker's menu, exactly and in order: Dashboard, My Tasks, Today's
      Tasks, Timesheet, Report Incident, My Incidents. */
  lemma WorkerMenu()
    ensures FilteredItems(Some(Worker)) ==
            [MenuItems[0], MenuItems[4], MenuItems[5], MenuItems[6], MenuItems[11], MenuItems[12]]
  {
    WorkerSeesAt();
    WorkerFilter(MenuItems, ShownTo(Some(Worker)));
  }

  /** The entries a worker sees, position by position in the table. */
  predicate WorkerPattern(m: seq<MenuItem>, p: MenuItem -> bool)
  {
    |m| == 13 && p(m[0]) && !p(m[1]) && !p(m[2]) && !p(m[3]) && p(m[4]) && p(m[5]) && p(m[6])
    && !p(m[7]) && !p(m[8]) && !p(m[9]) && !p(m[10]) && p(m[11]) && p(m[12])
  }

  lemma WorkerSeesAt()
    ensures WorkerPattern(MenuItems, ShownTo(Some(Worker)))
  {
    MenuRoles();
    var p := ShownTo(Some(Worker));
    assert Worker in AllRoles && Worker in FieldRoles;
  }

  /** The role list of every entry. */
  lemma MenuRoles()
    ensures |MenuItems| == 13
    ensures MenuItems[0].roles == AllRoles
    ensures MenuItems[1].roles == [Admin, ProjectManager, SiteSupervisor, Client]
    ensures MenuItems[2].roles == MenuItems[3].roles == MenuItems[8].roles
            == [Admin, ProjectManager, SiteSupervisor, Foreman]
    ensures MenuItems[4].roles == MenuItems[5].roles == MenuItems[6].roles
            == MenuItems[11].roles == MenuItems[12].roles == FieldRoles
    ensures MenuItems[7].roles == [Admin, ProjectManager, SiteSupervisor]
    ensures MenuItems[9].roles == [Admin, ProjectManager, Client]
    ensures MenuItems[10].roles == [Admin]
  {
  }

  // Proof steps of WorkerMenu, over any table with the worker's pattern,
  // three entries at a time from the end.

  lemma WorkerFilter(m: seq<MenuItem>, p: MenuItem -> bool)
    requires WorkerPattern(m, p)
    ensures Filter(m, p) == [m[0], m[4], m[5], m[6], m[11], m[12]]
  {
    WorkerFilterFrom1(m, p);
    FilterStep(m, 0, p);
    assert m[0..] == m;
  }

  lemma WorkerFilterFrom10(m: seq<MenuItem>, p: MenuItem -> bool)
    requires WorkerPattern(m, p)
    ensures Filter(m[10..], p) == [m[11], m[12]]
  {
    assert m[13..] == [];
    FilterStep(m, 12, p);
    FilterStep(m, 11, p);
    FilterStep(m, 10, p);
  }

  lemma WorkerFilterFrom7(m: seq<MenuItem>, p: MenuItem -> bool)
    requires WorkerPattern(m, p)
    ensures Filter(m[7..], p) == [m[11], m[12]]
  {
    WorkerFilterFrom10(m, p);
    FilterStep(m, 9, p);
    FilterStep(m, 8, p);
    FilterStep(m, 7, p);
  }

  lemma WorkerFilterFrom4(m: seq<MenuItem>, p: MenuItem -> bool)
    requires WorkerPattern(m, p)
    ensures Filter(m[4..], p) == [m[4], m[5], m[6], m[11], m[12]]
  {
    WorkerFilterFrom7(m, p);
    FilterStep(m, 6, p);
    FilterStep(m, 5, p);
    FilterStep(m, 4, p);
  }

  lemma WorkerFilterFrom1(m: seq<MenuItem>, p: MenuItem -> bool)
    requires WorkerPattern(m, p)
    ensures Filter(m[1..], p) == [m[4], m[5], m[6], m[11], m[12]]
  {
    WorkerFilterFrom4(m, p);
    FilterStep(m, 3, p);
    FilterStep(m, 2, p);
    FilterStep(m, 1, p);
  }

  /** The menu entries for `/tasks/my` and `/timesheet` admit exactly the
      roles the route guard lets through on those paths. */
  lemma FieldEntriesAgreeWithGuard(role: Role)
    ensures MenuItems[4].url == ProtectedRoute.MyTasksPath
    ensures MenuItems[6].url == ProtectedRoute.TimesheetPath
    ensures Shown(Some(role), MenuItems[4]) <==> !ProtectedRoute.FieldRoleDenied(Some(role))
    ensures Shown(Some(role), MenuItems[6]) <==> !ProtectedRoute.FieldRoleDenied(Some(role))
  {
  }
}
