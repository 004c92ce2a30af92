/** The administrator's role screen, src/components/RoleManagement.tsx: how a
    role is labelled and badged, the per-user pending selection behind the
    select and the Update button, and the `user_roles` table that the update
    rewrites by delete-then-insert. The table is a sequence of rows; the
    outcome of the remote insert is a parameter. */
module RoleManagement {
  import opened Common
  import opened Text
  import opened Roles

  // ------------------------------------------------------------ labels

  /** `getRoleDisplayName`: "No Role" for a missing role; otherwise every
      underscore becomes a space and each word starts upper-case. */
  function RoleDisplayName(role: Option<Role>): (s: string)
    ensures role.None? ==> s == "No Role"
    ensures role.Some? ==> s == WordsCapitalized(RoleName(role.value), true)
  {
    match role
    case None => "No Role"
    case Some(r) =>
      SplitCapitalizeJoinCharwise(RoleName(r));
      SplitCapitalizeJoin(RoleName(r))
  }

  /** A role named by one lower-case word reads that word capitalised. */
  lemma OneWordDisplayName(r: Role, w: string)
    requires RoleName(r) == w && LowerWord(w)
    ensures RoleDisplayName(Some(r)) == CapitalizeFirst(w)
  {
    CapitalizedWord(w);
  }

  /** A role named `a_b` reads "A B". */
  lemma TwoWordDisplayName(r: Role, a: string, b: string)
    requires RoleName(r) == a + "_" + b && LowerWord(a) && LowerWord(b)
    ensures RoleDisplayName(Some(r)) == CapitalizeFirst(a) + " " + CapitalizeFirst(b)
  {
    WordsCapitalizedTwoWords(a, b);
  }

  lemma AdminDisplayName(r: Role)
    requires r == Admin
    ensures RoleDisplayName(Some(r)) == "Admin"
  {
    var w := "admin";
    assert CapitalizeFirst(w) == "Admin" && LowerWord(w);
    OneWordDisplayName(r, w);
  }

  lemma ProjectManagerDisplayName(r: Role)
    requires r == ProjectManager
    ensures RoleDisplayName(Some(r)) == "Project Manager"
  {
    var a, b := "project", "manager";
    assert CapitalizeFirst(a) + " " + CapitalizeFirst(b) == "Project Manager";
    assert a + "_" + b == "project_manager" && LowerWord(a) && LowerWord(b);
    TwoWordDisplayName(r, a, b);
  }

  lemma SiteSupervisorDisplayName(r: Role)
    requires r == SiteSupervisor
    ensures RoleDisplayName(Some(r)) == "Site Supervisor"
  {
    var a, b := "site", "supervisor";
    assert CapitalizeFirst(a) + " " + CapitalizeFirst(b) == "Site Supervisor";
    assert a + "_" + b == "site_supervisor" && LowerWord(a) && LowerWord(b);
    TwoWordDisplayName(r, a, b);
  }

  lemma ForemanDisplayName(r: Role)
    requires r == Foreman
    ensures RoleDisplayName(Some(r)) == "Foreman"
  {
    var w := "foreman";
    assert CapitalizeFirst(w) == "Foreman" && LowerWord(w);
    OneWordDisplayName(r, w);
  }

  lemma WorkerDisplayName(r: Role)
    requires r == Worker
    ensures RoleDisplayName(Some(r)) == "Worker"
  {
    var w := "worker";
    assert CapitalizeFirst(w) == "Worker" && LowerWord(w);
    OneWordDisplayName(r, w);
  }

  lemma ClientDisplayName(r: Role)
    requires r == Client
    ensures RoleDisplayName(Some(r)) == "Client"
  {
    var w := "client";
    assert CapitalizeFirst(w) == "Client" && LowerWord(w);
    OneWordDisplayName(r, w);
  }

  /** The labels of the six roles are the option labels of the select, and
      no role is labelled like a missing one. */
  lemma DisplayNames(r: Role)
    ensures RoleDisplayName(Some(r)) == match r
              case Admin => "Admin"
              case ProjectManager => "Project Manager"
              case SiteSupervisor => "Site Supervisor"
              case Foreman => "Foreman"
              case Worker => "Worker"
              case Client => "Client"
    ensures RoleDisplayName(Some(r)) != RoleDisplayName(None)
  {
    match r {
      case Admin => AdminDisplayName(r);
      case ProjectManager => ProjectManagerDisplayName(r);
      case SiteSupervisor => SiteSupervisorDisplayName(r);
      case Foreman => ForemanDisplayName(r);
      case Worker => WorkerDisplayName(r);
      case Client => ClientDisplayName(r);
    }
    if r == Foreman {
      assert "Foreman"[0] != "No Role"[0];
    }
  }

  datatype BadgeVariant = Destructive | Default | Secondary | Outline

  /** `getRoleBadgeVariant`, total over the roles and a missing role. */
  function RoleBadgeVariant(role: Option<Role>): (v: BadgeVariant)
    ensures v == Destructive <==> role == Some(Admin)
    ensures v == Default <==> role == Some(ProjectManager)
    ensures v == Secondary <==> role == Some(SiteSupervisor) || role == Some(Client)
    ensures v == Outline <==> role.None? || role == Some(Foreman) || role == Some(Worker)
  {
    match role
    case Some(Admin) => Destructive
    case Some(ProjectManager) => Default
    case Some(SiteSupervisor) => Secondary
    case Some(Foreman) => Outline
    case Some(Worker) => Outline
    case Some(Client) => Secondary
    case None => Outline
  }

  // ------------------------------------------------------------ pending selection

  /** The select's value: the pending choice, else the current role, else "". */
  function SelectValue(selected: map<string, Role>, userId: string, current: Option<Role>): (v: string)
    ensures userId in selected ==> v == RoleName(selected[userId])
    ensures userId !in selected && current.Some? ==> v == RoleName(current.value)
    ensures v == "" <==> userId !in selected && current.None?
  {
    if userId in selected then RoleName(selected[userId])
    else if current.Some? then RoleName(current.value)
    else ""
  }

  /** Whether the Update button shows: a pending choice that differs from the
      current role (a missing role differs from every choice). */
  predicate ShowUpdate(selected: map<string, Role>, userId: string, current: Option<Role>)
  {
    userId in selected && current != Some(selected[userId])
  }

  /** The pending choices of the screen (`selectedRole`). */
  class RoleSelection {
    var selected: map<string, Role>

    constructor()
      ensures selected == map[]
    {
      selected := map[];
    }

    /** `onValueChange`: records the choice for that user only. */
    method Choose(userId: string, role: Role)
      modifies this
      ensures selected == old(selected)[userId := role]
    {
      selected := selected[userId := role];
    }
  }

  /** After a choice the select shows it, and the button appears exactly when
      it differs from the current role; other users' rows are unaffected. */
  lemma ChooseEffect(selected: map<string, Role>, userId: string, role: Role,
                     other: string, current: Option<Role>)
    ensures SelectValue(selected[userId := role], userId, current) == RoleName(role)
    ensures ShowUpdate(selected[userId := role], userId, current) <==> current != Some(role)
    ensures other != userId ==>
              SelectValue(selected[userId := role], other, current) == SelectValue(selected, other, current)
              && (ShowUpdate(selected[userId := role], other, current) <==> ShowUpdate(selected, other, current))
  {
  }

  /** Whenever the button shows, the select names a role other than the
      current one. */
  lemma ShowUpdateMeansChange(selected: map<string, Role>, userId: string, current: Option<Role>)
    requires ShowUpdate(selected, userId, current)
    ensures current.Some? ==> SelectValue(selected, userId, current) != RoleName(current.value)
  {
    if current.Some? {
      RoleNameInjective(selected[userId], current.value);
    }
  }

  // ------------------------------------------------------------ the role table

  datatype RoleRow = RoleRow(userId: string, role: Role)

  /** The rows of `user_roles` for one user. */
  function RowsOf(rows: seq<RoleRow>, userId: string): seq<RoleRow>
  {
    Filter(rows, (row: RoleRow) => row.userId == userId)
  }

  /** The role the list shows for a user: `.single()` yields a row only when
      there is exactly one, and no row reads as a missing role. */
  function FetchedRole(rows: seq<RoleRow>, userId: string): (r: Option<Role>)
    ensures r.Some? <==> |RowsOf(rows, userId)| == 1
    ensures r.Some? ==> RoleRow(userId, r.value) in rows
  {
    var own := RowsOf(rows, userId);
    if |own| == 1 then
      FilterMembers(rows, (row: RoleRow) => row.userId == userId);
      assert own[0] in own;
      Some(own[0].role)
    else None
  }

  /** The table after an update: the user's rows deleted when the delete
      succeeds (its error is not checked, so a failed delete leaves them in
      place), then the new row appended when the insert succeeds. */
  function RowsAfterUpdate(rows: seq<RoleRow>, userId: string, newRole: Role, deleteOk: bool, insertOk: bool): seq<RoleRow>
  {
    var kept := if deleteOk then Filter(rows, (row: RoleRow) => row.userId != userId) else rows;
    if insertOk then kept + [RoleRow(userId, newRole)] else kept
  }

  /** After a successful delete the user has exactly the inserted row, or
      none when the insert fails (the delete is not undone); after a failed
      delete the user's old rows stay and the inserted one joins them;
      other users' rows are untouched in every case. */
  lemma UpdateRoleRows(rows: seq<RoleRow>, userId: string, newRole: Role, deleteOk: bool, insertOk: bool, other: string)
    ensures deleteOk && insertOk ==>
              RowsOf(RowsAfterUpdate(rows, userId, newRole, deleteOk, insertOk), userId) == [RoleRow(userId, newRole)]
    ensures deleteOk && !insertOk ==>
              RowsOf(RowsAfterUpdate(rows, userId, newRole, deleteOk, insertOk), userId) == []
    ensures !deleteOk ==>
              RowsOf(RowsAfterUpdate(rows, userId, newRole, deleteOk, insertOk), userId)
              == RowsOf(rows, userId) + (if insertOk then [RoleRow(userId, newRole)] else [])
    ensures other != userId ==>
              RowsOf(RowsAfterUpdate(rows, userId, newRole, deleteOk, insertOk), other) == RowsOf(rows, other)
  {
    var notUser := (row: RoleRow) => row.userId != userId;
    var isUser := (row: RoleRow) => row.userId == userId;
    var isOther := (row: RoleRow) => row.userId == other;
    var kept := if deleteOk then Filter(rows, notUser) else rows;
    var added := [RoleRow(userId, newRole)];
    if deleteOk {
      FilterDisjoint(rows, notUser, isUser);
      if other != userId {
        FilterNarrower(rows, notUser, isOther);
      }
    }
    if insertOk {
      FilterAppend(kept, added, isUser);
      FilterAppend(kept, added, isOther);
      assert Filter(added, isUser) == added;
      assert other != userId ==> Filter(added, isOther) == [];
    }
  }

  /** What the refreshed list shows after an update. With a working delete
      the user's role is the new one, or none when the insert failed. With a
      failed delete the new role shows only for a user who had no row; a
      user who had one is left with two, and `.single()` then yields none,
      although the toast reports success. Other users keep theirs. */
  lemma UpdateRoleFetched(rows: seq<RoleRow>, userId: string, newRole: Role, deleteOk: bool, insertOk: bool, other: string)
    ensures deleteOk ==>
              FetchedRole(RowsAfterUpdate(rows, userId, newRole, deleteOk, insertOk), userId)
              == (if insertOk then Some(newRole) else None)
    ensures !deleteOk && insertOk ==>
              FetchedRole(RowsAfterUpdate(rows, userId, newRole, deleteOk, insertOk), userId)
              == (if RowsOf(rows, userId) == [] then Some(newRole) else None)
    ensures !deleteOk && !insertOk ==>
              FetchedRole(RowsAfterUpdate(rows, userId, newRole, deleteOk, insertOk), userId) == FetchedRole(rows, userId)
    ensures other != userId ==>
              FetchedRole(RowsAfterUpdate(rows, userId, newRole, deleteOk, insertOk), other) == FetchedRole(rows, other)
  {
    UpdateRoleRows(rows, userId, newRole, deleteOk, insertOk, other);
  }

  datatype Toast = Toast(title: string, description: string, destructive: bool)

  const UpdatedToast := Toast("Role Updated", "User role has been successfully updated.", false)
  const UpdateFailedToast := Toast("Error", "Failed to update user role. Please try again.", true)

  /** The `user_roles` table as the update mutation sees it. */
  class UserRolesTable {
    var rows: seq<RoleRow>

    constructor(rows0: seq<RoleRow>)
      ensures rows == rows0
    {
      rows := rows0;
    }

    /** The mutation: delete the user's rows (whose success is `deleteOk`
        and is not checked), insert the new one (whose success is
        `insertOk`), and report the insert's outcome. */
    method UpdateRole(userId: string, newRole: Role, deleteOk: bool, insertOk: bool) returns (toast: Toast)
      modifies this
      ensures rows == RowsAfterUpdate(old(rows), userId, newRole, deleteOk, insertOk)
      ensures toast == if insertOk then UpdatedToast else UpdateFailedToast
    {
      if deleteOk {
        rows := Filter(rows, (row: RoleRow) => row.userId != userId);
      }
      if insertOk {
        rows := rows + [RoleRow(userId, newRole)];
        toast := UpdatedToast;
      } else {
        toast := UpdateFailedToast;
      }
    }
  }

  // ------------------------------------------------------------ the listed users

  datatype Account = Account(id: string, email: string, firstName: string, lastName: string, isActive: bool)

  datatype UserWithRole = UserWithRole(account: Account, role: Option<Role>)

  /** `fetchUsersWithRoles`: every account, in order, with its fetched role. */
  function UsersWithRoles(accounts: seq<Account>, rows: seq<RoleRow>): (r: seq<UserWithRole>)
    ensures |r| == |accounts|
    ensures forall i :: 0 <= i < |r| ==>
              r[i].account == accounts[i] && r[i].role == FetchedRole(rows, accounts[i].id)
  {
    if accounts == [] then []
    else [UserWithRole(accounts[0], FetchedRole(rows, accounts[0].id))] + UsersWithRoles(accounts[1..], rows)
  }

  /** An account with no role row is listed with a missing role, shown as
      "No Role" with the outline badge. */
  lemma NoRowMeansNoRole(accounts: seq<Account>, rows: seq<RoleRow>, i: int)
    requires 0 <= i < |accounts|
    requires forall k :: 0 <= k < |rows| ==> rows[k].userId != accounts[i].id
    ensures UsersWithRoles(accounts, rows)[i].role == None
    ensures RoleDisplayName(UsersWithRoles(accounts, rows)[i].role) == "No Role"
    ensures RoleBadgeVariant(UsersWithRoles(accounts, rows)[i].role) == Outline
  {
    FilterMembers(rows, (row: RoleRow) => row.userId == accounts[i].id);
    var own := RowsOf(rows, accounts[i].id);
    if own != [] {
      assert own[0] in own;
    }
  }
}
