/** The workforce hook, src/hooks/useWorkforce.ts: the record built for each
    active user from today's timesheets and this week's timesheets — presence
    status, check-in label, hours today, weekly hours, role and its label,
    skills and current project. The three fetched lists, the current time
    (milliseconds since the epoch) and the locale time formatter are inputs. */
module UseWorkforce {
  import opened Common
  import opened Text
  import opened Roles
  import RoleManagement

  /** A row of the user query; `roles` are the joined `user_roles` rows. */
  datatype User = User(id: string, firstName: Option<string>, lastName: Option<string>, email: string,
                       phone: Option<string>, roles: seq<string>)

  /** A timesheet of today: its check-in instant in milliseconds, the
      check-out text, the recorded hours and the name of the site's project. */
  datatype Timesheet = Timesheet(userId: string, checkIn: int, checkOut: Option<string>,
                                 totalHours: Option<real>, projectName: Option<string>)

  /** A row of this week's timesheets. */
  datatype WeeklyRow = WeeklyRow(userId: string, totalHours: Option<real>)

  datatype Presence = OnSite | Break | OffDuty

  function PresenceName(p: Presence): string
  {
    match p
    case OnSite => "On Site"
    case Break => "Break"
    case OffDuty => "Off Duty"
  }

  datatype WorkerData = WorkerData(id: string, firstName: string, lastName: string, email: string,
                                   phone: string, role: string, currentProject: string,
                                   status: Presence, checkInTime: string, hoursToday: real,
                                   weeklyHours: real, skills: seq<string>)

  const MsPerHour := 3600000
  /** An open shift longer than this (four hours) is shown as a break. */
  const BreakAfterMs := 4 * MsPerHour

  // ------------------------------------------------------------ the timesheets

  /** `todayTimesheets?.find(t => t.user_id === user.id)`. */
  function TodayTimesheet(sheets: seq<Timesheet>, userId: string): (t: Option<Timesheet>)
    ensures t.None? <==> forall i :: 0 <= i < |sheets| ==> sheets[i].userId != userId
    ensures t.Some? ==> exists i :: 0 <= i < |sheets| && sheets[i] == t.value && t.value.userId == userId
                                    && forall j :: 0 <= j < i ==> sheets[j].userId != userId
  {
    Find(sheets, (t: Timesheet) => t.userId == userId)
  }

  /** A truthy `check_out`: present and not empty. */
  predicate CheckedOut(t: Timesheet)
  {
    t.checkOut.Some? && t.checkOut.value != ""
  }

  /** The presence shown for the timesheet found, at time `now`. */
  function PresenceAt(sheet: Option<Timesheet>, now: int): Presence
  {
    match sheet
    case None => OffDuty
    case Some(t) =>
      if CheckedOut(t) then OffDuty
      else if now - t.checkIn > BreakAfterMs then Break
      else OnSite
  }

  /** `Math.round(x * 10) / 10` of the elapsed hours `x = elapsedMs / 3600000`,
      on exact rationals: the nearest tenth, halves upwards. */
  function RoundedTenths(elapsedMs: int): real
  {
    ((2 * elapsedMs + 360000) / 720000) as real / 10.0
  }

  /** The hours-today figure for the timesheet found, at time `now`. */
  function HoursTodayAt(sheet: Option<Timesheet>, now: int): real
  {
    match sheet
    case None => 0.0
    case Some(t) =>
      if CheckedOut(t) then t.totalHours.GetOr(0.0)
      else RoundedTenths(now - t.checkIn)
  }

  /** The check-in label: "-" without a timesheet, the formatted check-in time
      otherwise. */
  function CheckInLabel(sheet: Option<Timesheet>, formatTime: int -> string): string
  {
    match sheet
    case None => "-"
    case Some(t) => formatTime(t.checkIn)
  }

  /** The presence rules: no timesheet is off duty with no hours; a checked-out
      timesheet is off duty with its recorded hours (or zero); an open shift
      is a break exactly when more than four hours have passed, and otherwise
      on site. */
  lemma PresenceRules(sheet: Option<Timesheet>, now: int, formatTime: int -> string)
    ensures sheet.None? ==> PresenceAt(sheet, now) == OffDuty && HoursTodayAt(sheet, now) == 0.0
                            && CheckInLabel(sheet, formatTime) == "-"
    ensures sheet.Some? && CheckedOut(sheet.value) ==>
              PresenceAt(sheet, now) == OffDuty
              && HoursTodayAt(sheet, now) == (if sheet.value.totalHours.Some? then sheet.value.totalHours.value else 0.0)
    ensures sheet.Some? && !CheckedOut(sheet.value) ==>
              (PresenceAt(sheet, now) == Break <==> now - sheet.value.checkIn > 4 * 3600000)
              && (PresenceAt(sheet, now) == OnSite <==> now - sheet.value.checkIn <= 4 * 3600000)
    ensures PresenceAt(sheet, now) != OffDuty <==> sheet.Some? && !CheckedOut(sheet.value)
  {
  }

  /** On an open shift the hours today are the elapsed hours rounded to the
      nearest tenth: never more than a twentieth of an hour away, with halves
      rounded up. */
  lemma {:induction false} RoundedTenthsNearest(elapsedMs: int)
    ensures var x := elapsedMs as real / 3600000.0;
            x - 0.05 < RoundedTenths(elapsedMs) <= x + 0.05
  {
    var n := 2 * elapsedMs + 360000;
    var k := n / 720000;
    assert k * 720000 <= n < (k + 1) * 720000;
    var kr, nr := k as real, n as real;
    assert kr * 720000.0 <= nr < kr * 720000.0 + 720000.0;
    var x := elapsedMs as real / 3600000.0;
    assert x * 3600000.0 == elapsedMs as real;
    assert nr == 7200000.0 * x + 360000.0;
    var h := kr / 10.0;
    assert RoundedTenths(elapsedMs) == h;
    assert h * 7200000.0 == kr * 720000.0;
  }

  // ------------------------------------------------------------ weekly hours

  predicate OwnRow(r: WeeklyRow, userId: string)
  {
    r.userId == userId
  }

  function RowHours(r: WeeklyRow): real
  {
    r.totalHours.GetOr(0.0)
  }

  /** The user's weekly total: the recorded hours of the user's own rows,
      missing hours counted as zero. */
  function WeeklyHours(rows: seq<WeeklyRow>, userId: string): real
  {
    SumBy(Filter(rows, (r: WeeklyRow) => OwnRow(r, userId)), RowHours)
  }

  /** Rows of other users never change a user's total, each own row adds its
      hours, and with no negative hours the total is never negative. */
  lemma {:induction false} WeeklyHoursOwnRowsOnly(rows: seq<WeeklyRow>, userId: string, r: WeeklyRow)
    ensures r.userId != userId ==> WeeklyHours(rows + [r], userId) == WeeklyHours(rows, userId)
    ensures r.userId == userId ==> WeeklyHours(rows + [r], userId) == WeeklyHours(rows, userId) + RowHours(r)
  {
    var own := (w: WeeklyRow) => OwnRow(w, userId);
    FilterAppend(rows, [r], own);
    assert Filter([r], own) == (if own(r) then [r] else []) + Filter([r][1..], own);
    assert [r][1..] == [];
    SumByAppend(Filter(rows, own), Filter([r], own), RowHours);
  }

  lemma WeeklyHoursNonNegative(rows: seq<WeeklyRow>, userId: string)
    requires forall i :: 0 <= i < |rows| ==> RowHours(rows[i]) >= 0.0
    ensures WeeklyHours(rows, userId) >= 0.0
  {
    var own := Filter(rows, (r: WeeklyRow) => OwnRow(r, userId));
    FilterMembers(rows, (r: WeeklyRow) => OwnRow(r, userId));
    forall i | 0 <= i < |own|
      ensures RowHours(own[i]) >= 0.0
    {
      assert own[i] in own;
      var j :| 0 <= j < |rows| && rows[j] == own[i];
    }
    SumByNonNegative(own, RowHours);
  }

  /** A user with no rows this week has worked zero hours. */
  lemma WeeklyHoursWithoutRows(rows: seq<WeeklyRow>, userId: string)
    requires forall i :: 0 <= i < |rows| ==> rows[i].userId != userId
    ensures WeeklyHours(rows, userId) == 0.0
  {
    assert CountWhere(rows, (r: WeeklyRow) => OwnRow(r, userId)) == 0;
  }

  // ------------------------------------------------------------ role, skills, project

  /** `user.user_roles[0]?.role || 'worker'`. */
  function RoleOf(user: User): (role: string)
    ensures role != ""
    ensures |user.roles| > 0 && user.roles[0] != "" ==> role == user.roles[0]
    ensures !(|user.roles| > 0 && user.roles[0] != "") ==> role == "worker"
  {
    if |user.roles| > 0 && user.roles[0] != "" then user.roles[0] else "worker"
  }

  const GeneralSkills := ["General Construction"]

  const RoleSkills: map<string, seq<string>> := map[
    "site_supervisor" := ["Leadership", "Safety", "Concrete"],
    "worker" := ["Construction", "Safety", "Tools"],
    "project_manager" := ["Planning", "Communication", "Documentation"],
    "foreman" := ["Leadership", "Safety", "Construction"]
  ]

  /** `roleSkillsMap[role] || ['General Construction']`. */
  function SkillsFor(role: string): seq<string>
  {
    if role in RoleSkills then RoleSkills[role] else GeneralSkills
  }

  /** Every role gets three skills from the map except administrators and
      clients, who get the general list; safety is among the skills of
      exactly the field roles. */
  lemma SkillsRules(r: Role)
    ensures r == Admin || r == Client <==> SkillsFor(RoleName(r)) == GeneralSkills
    ensures r != Admin && r != Client ==> |SkillsFor(RoleName(r))| == 3
    ensures "Safety" in SkillsFor(RoleName(r)) <==> r == SiteSupervisor || r == Foreman || r == Worker
  {
  }

  /** The hook's fallback: a user record without a role row reads as a
      worker, with the worker's skills. The query's inner join on
      `user_roles` returns no such user, so the fallback guards only
      against rows the join does not produce. */
  lemma NoRoleRowIsWorker(user: User)
    requires user.roles == []
    ensures RoleOf(user) == RoleName(Worker)
    ensures SkillsFor(RoleOf(user)) == ["Construction", "Safety", "Tools"]
  {
  }

  /** The role label: only the first underscore becomes a space, then every
      word start is upper-cased. */
  function RoleLabel(role: string): (text: string)
    ensures |text| == |role|
  {
    FirstUnderscoreLabel(role)
  }

  lemma OneWordRoleLabel(name: string)
    requires LowerWord(name)
    ensures RoleLabel(name) == WordsCapitalized(name, true)
  {
    FirstUnderscoreLabelOneWord(name);
    CapitalizedWord(name);
  }

  lemma TwoWordRoleLabel(a: string, b: string)
    requires LowerWord(a) && LowerWord(b)
    ensures RoleLabel(a + "_" + b) == WordsCapitalized(a + "_" + b, true)
  {
    LabelsAgreeOnTwoWords(a, b);
  }

  lemma ProjectManagerLabel(name: string)
    requires name == "project_manager"
    ensures RoleLabel(name) == WordsCapitalized(name, true)
  {
    var a, b := "project", "manager";
    assert LowerWord(a) && LowerWord(b);
    assert name == a + "_" + b;
    TwoWordRoleLabel(a, b);
  }

  lemma SiteSupervisorLabel(name: string)
    requires name == "site_supervisor"
    ensures RoleLabel(name) == WordsCapitalized(name, true)
  {
    var a, b := "site", "supervisor";
    assert LowerWord(a) && LowerWord(b);
    assert name == a + "_" + b;
    TwoWordRoleLabel(a, b);
  }

  lemma OneWordRoleName(r: Role)
    requires r != ProjectManager && r != SiteSupervisor
    ensures LowerWord(RoleName(r))
  {
  }

  /** The label of every role name is its split-capitalise-join reading. */
  lemma RoleNameLabel(r: Role, name: string)
    requires name == RoleName(r)
    ensures RoleLabel(name) == WordsCapitalized(name, true)
  {
    if r == ProjectManager {
      ProjectManagerLabel(name);
    } else if r == SiteSupervisor {
      SiteSupervisorLabel(name);
    } else {
      OneWordRoleName(r);
      OneWordRoleLabel(name);
    }
  }

  /** For every one of the six roles, the label of this hook equals the
      label of the role screen, although the two are computed differently
      (the role names have at most one underscore). */
  lemma RoleLabelAgreesWithRoleScreen(r: Role)
    ensures RoleLabel(RoleName(r)) == RoleManagement.RoleDisplayName(Some(r))
  {
    RoleNameLabel(r, RoleName(r));
  }

  /** `todayTimesheet?.sites?.projects?.name || 'Unassigned'`. */
  function CurrentProject(sheet: Option<Timesheet>): (project: string)
    ensures project != ""
    ensures project == "Unassigned" <==>
              sheet.None? || sheet.value.projectName.None? || sheet.value.projectName.value in {"", "Unassigned"}
  {
    if sheet.Some? && sheet.value.projectName.Some? && sheet.value.projectName.value != "" then
      sheet.value.projectName.value
    else "Unassigned"
  }

  // ------------------------------------------------------------ the record

  /** The record of one user, field by field. */
  function WorkerFor(user: User, today: seq<Timesheet>, weekly: seq<WeeklyRow>, now: int,
                     formatTime: int -> string): WorkerData
  {
    var sheet := TodayTimesheet(today, user.id);
    var role := RoleOf(user);
    WorkerData(user.id, user.firstName.GetOr(""), user.lastName.GetOr(""), user.email,
               user.phone.GetOr(""), RoleLabel(role), CurrentProject(sheet),
               PresenceAt(sheet, now), CheckInLabel(sheet, formatTime), HoursTodayAt(sheet, now),
               WeeklyHours(weekly, user.id), SkillsFor(role))
  }

  /** The `users.map` callback: starts off duty with "-" and zero hours and
      overwrites those three when a timesheet is found. */
  method BuildWorker(user: User, today: seq<Timesheet>, weekly: seq<WeeklyRow>, now: int,
                     formatTime: int -> string) returns (w: WorkerData)
    ensures w == WorkerFor(user, today, weekly, now, formatTime)
  {
    var sheet := TodayTimesheet(today, user.id);
    var weeklyHours := WeeklyHours(weekly, user.id);
    var status := OffDuty;
    var checkInTime := "-";
    var hoursToday := 0.0;
    if sheet.Some? {
      var t := sheet.value;
      checkInTime := formatTime(t.checkIn);
      if t.checkOut.Some? && t.checkOut.value != "" {
        status := OffDuty;
        hoursToday := if t.totalHours.Some? then t.totalHours.value else 0.0;
      } else {
        var elapsed := now - t.checkIn;
        status := if elapsed > BreakAfterMs then Break else OnSite;
        hoursToday := RoundedTenths(elapsed);
      }
    }
    assert status == PresenceAt(sheet, now) && checkInTime == CheckInLabel(sheet, formatTime)
           && hoursToday == HoursTodayAt(sheet, now);
    var role := RoleOf(user);
    var skills := SkillsFor(role);
    w := WorkerData(user.id, user.firstName.GetOr(""), user.lastName.GetOr(""), user.email,
                    user.phone.GetOr(""), RoleLabel(role), CurrentProject(sheet),
                    status, checkInTime, hoursToday, weeklyHours, skills);
  }

  /** `users.map(...)`: one record per user, in order. */
  method BuildWorkforce(users: seq<User>, today: seq<Timesheet>, weekly: seq<WeeklyRow>, now: int,
                        formatTime: int -> string) returns (workers: seq<WorkerData>)
    ensures |workers| == |users|
    ensures forall i :: 0 <= i < |users| ==> workers[i] == WorkerFor(users[i], today, weekly, now, formatTime)
  {
    workers := [];
    var i := 0;
    while i < |users|
      invariant 0 <= i <= |users| && |workers| == i
      invariant forall k :: 0 <= k < i ==> workers[k] == WorkerFor(users[k], today, weekly, now, formatTime)
    {
      var w := BuildWorker(users[i], today, weekly, now, formatTime);
      workers := workers + [w];
      i := i + 1;
    }
  }

  /** Each record keeps its user's id and email and carries a role label,
      a project and at least one skill. */
  lemma WorkerForFields(user: User, today: seq<Timesheet>, weekly: seq<WeeklyRow>, now: int,
                        formatTime: int -> string)
    ensures var w := WorkerFor(user, today, weekly, now, formatTime);
            w.id == user.id && w.email == user.email
            && w.role != "" && w.currentProject != "" && |w.skills| >= 1
            && (w.status == OffDuty <==> TodayTimesheet(today, user.id).None?
                                         || CheckedOut(TodayTimesheet(today, user.id).value))
  {
  }
}
