# BuildPro core, modelled in Dafny

BuildPro is a construction-management web application written in React and
TypeScript. It has pages for projects, sites, tasks, workforce, equipment,
training and incident reports, and it uses a hosted database for storage and
authentication. This project models the decision logic of its core:

- **Access.** The route table, the route guard and its role checks, and the
  sidebar menu filtered by role.
- **Sessions.** The authentication context, which persists a mock session
  under a storage key.
- **Forms.** Sign-up (e-mail validation, the administrator addresses, the
  password checks and their order, the messages), login (view choice, error
  messages), the incident report (schema validation, upload path, the row
  inserted), the training-video upload, and the add-task and add-equipment
  dialogs.
- **Roles.** The role-management screen: display names, badge variants, the
  role select and the delete-then-insert role update.
- **Training.** The training page (duration text, completed count, progress
  percentage) and the required-training dialog (watched set, the "Start Task"
  and "Complete N More" caption).
- **Tasks.** Pages of tasks: "My Tasks" (status label and colour, row-click
  target, cards) and "Today's Tasks" (status toggle and its update, planned
  total, progress).
- **Workforce.** The workforce hook (one worker record per user from today's
  timesheet, weekly hours, role, skills and project) and the workforce page
  (search, status colour, stat cards, weekly bar).
- **Equipment.** The equipment hook (operator name, service interval by
  category, defaults) and the equipment page (maintenance status from hours
  since the last service, usage bar, badge colour, stat cards).

Each source file is one Dafny module. There are also three shared modules:

- `Common`: Option/Result, and filter, find, count and sum over sequences.
- `Text`: ASCII case mapping, JavaScript `trim`, `includes`, `split`,
  `lastIndexOf` and the label transforms.
- `Roles`: the six roles of `UserRole`.

Pure helpers are functions. Component state that the source updates in place
is a `class` whose methods carry `modifies` clauses: the auth provider, the
sign-up, login, incident, upload and dialog forms, the role table, the tasks
table and the required-training dialog. Backend calls are not modelled as
calls: their outcomes are parameters of the methods that would issue them.

## Model

| member | source | states |
|---|---|---|
| Roles.ParseRole | src/contexts/AuthContext.tsx:4 | a parsed role's name is the parsed text |
| Roles.RoleNameRoundTrip | src/contexts/AuthContext.tsx:4 | parsing a role's name gives back that role |
| Roles.RoleNameInjective | src/contexts/AuthContext.tsx:4 | distinct roles have distinct names |
| ProtectedRoute.Guard | src/components/ProtectedRoute.tsx:14-44 | spinner exactly while loading; login redirect exactly when loaded without a user; only the login page and the dashboard are redirect targets; children render exactly when no check fires |
| ProtectedRoute.FieldPagesOnlyForWorkersAndForemen | src/components/ProtectedRoute.tsx:27-38 | on `/tasks/my` and `/timesheet` a loaded user sees the page if and only if the role is worker or foreman; anyone else goes to the dashboard |
| ProtectedRoute.RequiredRoleAdmitsOnlyThatRole | src/components/ProtectedRoute.tsx:40-42 | with a required role, exactly users of that role see the page |
| ProtectedRoute.OtherPathsRenderForAnyUser | src/components/ProtectedRoute.tsx:22-44 | without a required role, other paths render for every logged-in user, with or without a role |
| ProtectedRoute.TrailingSlashIsNotGated | src/components/ProtectedRoute.tsx:27-38 | the exact path comparison lets `/tasks/my/` and `/timesheet/` through for an admin and for a user without a role |
| AppSidebar.FilteredItems | src/components/AppSidebar.tsx:116-118 | the shown entries are the menu entries, in menu order, whose role list holds the user's role; no role shows none |
| AppSidebar.DashboardForAllSettingsForAdmin | src/components/AppSidebar.tsx:32-112 | Dashboard is shown to every role; Settings only to admins |
| AppSidebar.WorkerMenu | src/components/AppSidebar.tsx:32-118 | a worker's menu is Dashboard, My Tasks, Today's Tasks, Timesheet, Report Incident and My Incidents, in that order |
| AppSidebar.FieldEntriesAgreeWithGuard | src/components/AppSidebar.tsx:49-61 | the My Tasks and Timesheet entries point at the guarded paths and are shown exactly to the roles the guard admits there |
| AppRoutes.TrimTrailingSlashes | src/App.tsx:51-267 | the router's reading of a path drops only trailing slashes |
| AppRoutes.ResolveIsFirstMatch | src/App.tsx:51-267 | a path resolves to the first route whose pattern it matches, and to the `*` route exactly when none matches |
| AppRoutes.BothMatchOverlap | src/App.tsx:51-267 | segments matching two patterns show that the patterns have the same length and the same word wherever both have one |
| AppRoutes.DeclaredPatternsDisjoint | src/App.tsx:51-264 | no two declared route patterns overlap |
| AppRoutes.AtMostOneRouteMatches | src/App.tsx:51-264 | at most one declared route matches any path |
| AppRoutes.ResolveIsTheMatch | src/App.tsx:51-267 | a path renders the one declared route it matches, so the router's ranking and the first match in declaration order agree |
| AppRoutes.PublicAndGuardedRoutes | src/App.tsx:51-267 | exactly the index, login, sign-up and auth routes are public; every other declared route sits behind the guard with no required role |
| AppRoutes.ProjectRouteTakesAnyId | src/App.tsx:84 | `/projects/<id>` shows the project detail page for any one-segment id, with `projects` in any letter case |
| AppRoutes.SiteRouteTakesAnyId | src/App.tsx:110 | `/sites/<id>` shows the site detail page for any one-segment id, with `sites` in any letter case |
| AppRoutes.TaskIdsAreNotFound | src/App.tsx:123-149 | `/tasks/<id>` (with `tasks` in any letter case) for an id other than `my` or `today`, in any letter case, reaches the not-found route |
| AppRoutes.Visit | src/App.tsx:58-267 | public routes always show their page; a shown page is the resolved route's page; a guarded route without a user redirects to login |
| AppRoutes.OtherSpellingsBypassFieldCheck | src/App.tsx:136-162 | any other spelling of the My Tasks or Timesheet path shows that page to every logged-in user |
| AppRoutes.TasksMyWithSlashResolves | src/App.tsx:135-147 | `/tasks/my/`, in any letter case, resolves to the My Tasks route |
| AppRoutes.TimesheetWithSlashResolves | src/App.tsx:161-173 | `/timesheet/`, in any letter case, resolves to the Timesheet route |
| AppRoutes.MyTasksReachableByAnyRole | src/components/ProtectedRoute.tsx:27-38 | every logged-in user, whatever the role, is shown My Tasks at `/tasks/my/` in any letter case |
| AppRoutes.TimesheetReachableByAnyRole | src/components/ProtectedRoute.tsx:27-38 | every logged-in user, whatever the role, is shown the Timesheet at `/timesheet/` in any letter case |
| AppRoutes.WorkerPagesReachableByOtherRoles | src/components/ProtectedRoute.tsx:27-38 | an admin reaches My Tasks through `/tasks/my/`, and a client reaches Timesheet through `/timesheet/` |
| AppRoutes.GuardForPage | src/components/ProtectedRoute.tsx:27-38 | the guard keyed on the resolved page admits only workers and foremen to the two field pages |
| AppRoutes.WorkerPagesOnlyForFieldRoles | src/components/ProtectedRoute.tsx:27-38 | with that guard, the My Tasks and Timesheet pages are shown only to workers and foremen, whatever the spelling of the path |
| AppRoutes.PageGuardAgreesOnCanonicalPaths | src/components/ProtectedRoute.tsx:27-38 | on the canonical paths the page-keyed guard behaves exactly as the source's guard |
| AppRoutes.PublicRouteShowsPublicPage | src/App.tsx:51-54 | a public route shows only the index, login, sign-up, auth or not-found page |
| AuthContext.StoredAfterLogin | src/contexts/AuthContext.tsx:49 | login stores the mock user under the storage key and leaves other keys untouched |
| AuthContext.StoredAfterLogout | src/contexts/AuthContext.tsx:60 | logout removes only the storage key |
| AuthContext.AuthProvider.constructor | src/contexts/AuthContext.tsx:24-25 | the provider starts with no user, loading |
| AuthContext.AuthProvider.Init | src/contexts/AuthContext.tsx:27-34 | the stored user is restored if present; loading ends |
| AuthContext.AuthProvider.Login | src/contexts/AuthContext.tsx:36-56 | the user becomes the admin mock user for the e-mail, and storage holds it |
| AuthContext.AuthProvider.Logout | src/contexts/AuthContext.tsx:58-61 | the user is cleared and the stored session removed |
| AuthContext.UseAuth | src/contexts/AuthContext.tsx:70-76 | outside a provider the hook fails with its message; inside it returns the context |
| AuthContext.LoginThenReload | src/contexts/AuthContext.tsx:27-56 | after a login, a fresh provider restores the same user and stops loading |
| AuthContext.LogoutThenReload | src/contexts/AuthContext.tsx:27-61 | after a logout, a fresh provider restores nobody |
| AuthContext.StorageRoundTrip | src/contexts/AuthContext.tsx:27-61 | restoring after login gives the logged-in user; after logout, nobody; other keys survive both |
| Signup.EmailPatternCheckCorrect | src/pages/Signup.tsx:59 | the executable e-mail check accepts exactly the addresses of the source's regular expression |
| Signup.AdminEmailsMatchPattern | src/pages/Signup.tsx:46-59 | every administrator address also passes the pattern |
| Signup.ValidateEmail | src/pages/Signup.tsx:51-65 | an empty address is "required"; an address is accepted exactly when it is an admin address or matches the pattern; otherwise it is invalid |
| Signup.ValidEmailIsPattern | src/pages/Signup.tsx:46-65 | an address is accepted exactly when it matches the pattern, so the admin shortcut admits nothing more |
| Signup.SuccessMessageNamesRole | src/pages/Signup.tsx:99-100 | the success message names the Administrator role for admin addresses and the Worker role for all others; two messages agree exactly when both or neither address is an admin's |
| Signup.SignupErrorMessage | src/pages/Signup.tsx:110-114 | "already registered" errors get their own message; other errors show their text; an empty text gets the generic failure |
| Signup.SignupForm.With | src/pages/Signup.tsx:33-44 | changing a field sets that field and no other |
| Signup.SubmitValidation | src/pages/Signup.tsx:73-87 | a form passes exactly when the e-mail is valid, the passwords agree and the password has at least 6 UTF-16 units; each failure is one of the four messages |
| Signup.ValidationOrder | src/pages/Signup.tsx:73-87 | the e-mail check comes first, then the match check, then the length check |
| Signup.SignupPage.constructor | src/pages/Signup.tsx:15-24 | the page starts with an empty form and no messages |
| Signup.SignupPage.HandleChange | src/pages/Signup.tsx:33-44 | typing updates one field and clears the error |
| Signup.SignupPage.HandleSubmit | src/pages/Signup.tsx:67-118 | the backend is called exactly when validation passes; success shows the role message and resets the form; failure shows the mapped error and keeps the form; submitting ends |
| Login.View | src/pages/Login.tsx:20-22 | a logged-in user is redirected; otherwise a spinner while loading, else the form |
| Login.ErrorMessage | src/pages/Login.tsx:40-46 | wrong credentials and unconfirmed e-mail get their own messages, in that order of precedence; anything else gets the default |
| Login.ErrorMessagePrecedence | src/pages/Login.tsx:40-46 | a message naming both causes reads as wrong credentials; the default appears exactly when neither cause is named |
| Login.LoginPage.constructor | src/pages/Login.tsx:16-18 | the form starts empty and not submitting |
| Login.LoginPage.HandleSubmit | src/pages/Login.tsx:24-56 | success toasts a welcome and navigates to the dashboard; failure toasts the mapped error and stays; submitting ends; the fields are kept |
| Login.LoginPage.HandleDemoLogin | src/pages/Login.tsx:58-61 | the demo button fills in the demo credentials |
| NewIncident.ParseSeverity | src/pages/NewIncident.tsx:21 | only `low`, `medium` and `high` are severities |
| NewIncident.ValidateIncident | src/pages/NewIncident.tsx:19-25 | a report passes exactly when the title has 1 to 255 UTF-16 units, the severity is one of the three and the description has at least 10; each of the five rules (title missing, title too long, severity missing, severity outside the three, description too short) is reported exactly when it fails |
| NewIncident.UploadPath | src/pages/NewIncident.tsx:70-72 | uploads go under `incidents/` |
| NewIncident.UploadPathKeepsExtension | src/pages/NewIncident.tsx:70-72 | the stored name keeps the file's extension |
| NewIncident.IncidentForm.constructor | src/pages/NewIncident.tsx:32-34 | no file, no preview, not submitting |
| NewIncident.IncidentForm.HandleFileChange | src/pages/NewIncident.tsx:45-61 | choosing a file selects it, with a preview only for images; choosing nothing changes nothing |
| NewIncident.IncidentForm.RemoveFile | src/pages/NewIncident.tsx:63-66 | the file and its preview are cleared |
| NewIncident.IncidentForm.OnSubmit | src/pages/NewIncident.tsx:108-158 | without a user or profile nothing is sent; a failed upload inserts nothing; the inserted row carries the form, the upload path and the reporter; success navigates away; every other outcome shows the failure |
| NewIncident.Submit | src/pages/NewIncident.tsx:19-158 | invalid reports return their issues and insert nothing; an inserted report satisfies every schema rule and names the logged-in reporter |
| VideoUpload.TrainingPath | src/components/VideoUploadModal.tsx:68-70 | uploads go under `training/` |
| VideoUpload.TrainingPathKeepsExtension | src/components/VideoUploadModal.tsx:68-70 | the stored name keeps the file's extension |
| VideoUpload.VideoUploadModal.constructor | src/components/VideoUploadModal.tsx:28-35 | empty form, not uploading |
| VideoUpload.VideoUploadModal.HandleFileChange | src/components/VideoUploadModal.tsx:37-50 | a video is taken; any other file is refused with a toast and the form is kept |
| VideoUpload.VideoUploadModal.HandleSubmit | src/components/VideoUploadModal.tsx:52-121 | no file: a toast and nothing sent; otherwise the upload path; a failed upload inserts nothing; the row carries the form, the public URL and the parsed duration; success resets and closes; failure keeps the form |
| AddTask.OrNull | src/components/AddTaskDialog.tsx:67-69 | an empty text is sent as null, any other as itself |
| AddTask.BuildTaskRow | src/components/AddTaskDialog.tsx:65-74 | the inserted row: trimmed name, description null when blank, empty dates null, hours parsed when given, priority parsed or 1, status `not_started`, progress 0 |
| AddTask.DefaultFormRow | src/components/AddTaskDialog.tsx:41-74 | the default form inserts priority 1 and nulls for every optional field |
| AddTask.AddTaskDialog.constructor | src/components/AddTaskDialog.tsx:36-50 | closed, not submitting, default form |
| AddTask.AddTaskDialog.Settle | src/components/AddTaskDialog.tsx:74-96 | after the insert: success toasts, resets the form and closes the dialog; failure toasts and keeps both; submitting ends either way |
| AddTask.AddTaskDialog.OnSubmit | src/components/AddTaskDialog.tsx:52-97 | a blank name is refused before any insert; otherwise the built row is sent; success resets and closes; failure keeps the form open |
| AddEquipment.AmountOrNull | src/components/AddEquipmentDialog.tsx:69-70 | a NaN or zero amount is sent as null, any other as itself |
| AddEquipment.BuildEquipmentRow | src/components/AddEquipmentDialog.tsx:62-72 | text fields pass through; amounts as above; an empty service date is null; status `available` |
| AddEquipment.AddEquipmentDialog.constructor | src/components/AddEquipmentDialog.tsx:40-56 | closed, empty form |
| AddEquipment.AddEquipmentDialog.OnSubmit | src/components/AddEquipmentDialog.tsx:58-96 | the built row is sent; success resets and closes; failure keeps the form open |
| RoleManagement.RoleDisplayName | src/components/RoleManagement.tsx:108-113 | no role reads "No Role"; a role reads its name with each underscore-separated word capitalised |
| RoleManagement.DisplayNames | src/components/RoleManagement.tsx:108-113 | the six display names, each different from "No Role" |
| RoleManagement.RoleBadgeVariant | src/components/RoleManagement.tsx:96-106 | destructive for admins, default for project managers, secondary for site supervisors and clients, outline otherwise |
| RoleManagement.SelectValue | src/components/RoleManagement.tsx:168 | the select shows the pending choice, else the current role, else nothing |
| RoleManagement.RoleSelection.constructor | src/components/RoleManagement.tsx:50 | no pending choice |
| RoleManagement.RoleSelection.Choose | src/components/RoleManagement.tsx:169-171 | a choice records that user's pending role |
| RoleManagement.ChooseEffect | src/components/RoleManagement.tsx:168-186 | after a choice the select shows it and Update appears exactly when it differs from the current role; other users are unaffected |
| RoleManagement.ShowUpdateMeansChange | src/components/RoleManagement.tsx:186 | Update is offered only when the choice differs from the current role |
| RoleManagement.FetchedRole | src/components/RoleManagement.tsx:31-39 | a user has a role exactly when there is a single role row for them, and it is that row's role |
| RoleManagement.UpdateRoleFetched | src/components/RoleManagement.tsx:57-74 | after a working delete the user's role is the new one if the insert succeeded, else none; after a failed delete the new role shows only for a user who had no row, a user who had one shows none although the toast reports success; other users keep theirs |
| RoleManagement.UpdateRoleRows | src/components/RoleManagement.tsx:59-71 | after a working delete the user has exactly the inserted row, or none if the insert failed; after a failed delete the old rows stay and the inserted one joins them; others' rows stay |
| RoleManagement.UserRolesTable.constructor | src/components/RoleManagement.tsx:22-45 | the table starts from the fetched rows |
| RoleManagement.UserRolesTable.UpdateRole | src/components/RoleManagement.tsx:57-89 | the rows become the delete-then-insert result for both outcomes of each call; the toast reports the insert's outcome only |
| RoleManagement.UsersWithRoles | src/components/RoleManagement.tsx:22-45 | one entry per account, in order, with its fetched role |
| RoleManagement.NoRowMeansNoRole | src/components/RoleManagement.tsx:39 | an account without role rows shows "No Role" with the outline badge |
| Training.FormatDurationRoundTrip | src/pages/Training.tsx:53-60 | the duration text reads back as the minutes it was made from |
| Training.IsCompleted | src/pages/Training.tsx:79-81 | a module is completed exactly when some completion row names it |
| Training.CompletedCountBounds | src/pages/Training.tsx:101 | the count is at most the module count, 0 exactly when none is completed, full exactly when all are |
| Training.ProgressPercent | src/pages/Training.tsx:142 | 0 for an empty list; otherwise the percentage rounded half up |
| Training.ProgressPercentBounds | src/pages/Training.tsx:142 | progress lies in 0 to 100, is 100 when all are done, 0 when none, and grows with the count |
| Training.PageProgress | src/pages/Training.tsx:101-142 | the page's progress never exceeds 100 |
| TrainingRequiredModal.StartLabel | src/components/TrainingRequiredModal.tsx:121-125 | the caption is "Start Task" exactly when all are watched; otherwise "Complete N More" with N the list size minus the watched count |
| TrainingRequiredModal.AllCompletedIsInclusion | src/components/TrainingRequiredModal.tsx:53 | all completed means every id is in the watched set; an empty list is complete |
| TrainingRequiredModal.RemainingCountsUnwatched | src/components/TrainingRequiredModal.tsx:125 | with distinct ids, N is the number of unwatched videos, and 0 exactly when all are watched |
| TrainingRequiredModal.WatchingCompletes | src/components/TrainingRequiredModal.tsx:47-53 | watching more never undoes completion; watching every video completes |
| TrainingRequiredModal.RequiredTrainingDialog.constructor | src/components/TrainingRequiredModal.tsx:45 | nothing watched yet |
| TrainingRequiredModal.RequiredTrainingDialog.HandleWatchVideo | src/components/TrainingRequiredModal.tsx:47-51 | the video's id joins the watched set |
| TrainingRequiredModal.RequiredTrainingDialog.HandleComplete | src/components/TrainingRequiredModal.tsx:55-60 | completion and close fire exactly when all are watched |
| TrainingRequiredModal.WatchAll | src/components/TrainingRequiredModal.tsx:47-60 | watching each video in turn completes the dialog |
| TaskRows.TotalPlannedHoursOfPlanned | src/pages/MyTasks.tsx:171 | tasks without planned hours add nothing to the total |
| TaskRows.TotalPlannedHoursAppend | src/pages/TodaysTasks.tsx:222 | the total adds up list by list |
| TaskRows.TotalPlannedHoursNonNegative | src/pages/TodaysTasks.tsx:222 | non-negative plans give a non-negative total |
| MyTasks.InProgressLabel | src/pages/MyTasks.tsx:61-63 | `in_progress` is shown as "In Progress" |
| MyTasks.StatusColor | src/pages/MyTasks.tsx:52-59 | blue exactly for in progress, yellow exactly for pending, grey otherwise |
| MyTasks.RowClickTarget | src/pages/MyTasks.tsx:65-67 | a row click goes to `/tasks/` followed by its id |
| MyTasks.RowClickShowsNotFound | src/pages/MyTasks.tsx:65-67 | that path reaches the not-found page for any ordinary task id |
| MyTasks.InProgressCountIsBlueRows | src/pages/MyTasks.tsx:160 | the In Progress card counts exactly the blue rows |
| MyTasks.PlannedHoursCard | src/pages/MyTasks.tsx:171 | the card is the total over the tasks that have a plan |
| Text.LabelsAgreeOnTwoWords | src/pages/MyTasks.tsx:61-63 | on two-word names, the first-underscore label equals the every-word capitalisation |
| Text.LabelsDifferOnThreeWords | src/pages/MyTasks.tsx:61-63 | on three lower-case words joined by underscores they differ: the label replaces only the first underscore and leaves the third word uncapitalised |
| Text.FirstUnderscoreLabelAt | src/pages/MyTasks.tsx:62 | after the first underscore becomes a space, exactly the characters that start a `\w` word are upper-cased |
| TodaysTasks.ToggleStatus | src/pages/TodaysTasks.tsx:82-85 | the toggle always sends done or in progress, and done exactly when it was not yet done |
| TodaysTasks.ToggleTwice | src/pages/TodaysTasks.tsx:82-85 | toggling twice restores done and in progress; any other status comes back as in progress |
| TodaysTasks.UpdateFor | src/pages/TodaysTasks.tsx:64-67 | actual hours are sent exactly when marking done, and are its planned hours or 0 |
| TodaysTasks.UpdatedRows | src/pages/TodaysTasks.tsx:64-68 | the update changes the rows with that id and no others |
| TodaysTasks.ToggleEffect | src/pages/TodaysTasks.tsx:60-85 | the toggled row gets the new status and, when marked done, its planned hours as actual hours; its other fields are kept |
| TodaysTasks.UpdateKeepsPlannedTotal | src/pages/TodaysTasks.tsx:222 | an update never changes the planned-hours total |
| TodaysTasks.TaskTable.constructor | src/pages/TodaysTasks.tsx:27-50 | the table starts from the fetched rows |
| TodaysTasks.TaskTable.Update | src/pages/TodaysTasks.tsx:60-80 | on success the rows are updated, on failure they are kept; the message says which |
| TodaysTasks.HandleTaskToggle | src/pages/TodaysTasks.tsx:82-85 | the toggle sends the update for the new status and keeps the planned total |
| TodaysTasks.ProgressBounds | src/pages/TodaysTasks.tsx:87-88 | progress lies in 0 to 100, is 0 exactly when nothing is done and 100 exactly when a non-empty list is all done |
| UseWorkforce.TodayTimesheet | src/hooks/useWorkforce.ts:70 | the user's first timesheet of the day, or none exactly when the user has none |
| UseWorkforce.PresenceRules | src/hooks/useWorkforce.ts:76-95 | no timesheet: off duty, 0 hours, "-"; checked out: off duty with the recorded hours; open: on break after 4 hours, else on site |
| UseWorkforce.RoundedTenthsNearest | src/hooks/useWorkforce.ts:96 | the rounded hours lie within 0.05 of the elapsed hours |
| UseWorkforce.WeeklyHoursOwnRowsOnly | src/hooks/useWorkforce.ts:71-73 | only the user's own weekly rows add to the weekly hours, each adding its hours |
| UseWorkforce.WeeklyHoursNonNegative | src/hooks/useWorkforce.ts:71-73 | non-negative rows give non-negative weekly hours |
| UseWorkforce.WeeklyHoursWithoutRows | src/hooks/useWorkforce.ts:71-73 | a user without rows has 0 weekly hours |
| UseWorkforce.RoleOf | src/hooks/useWorkforce.ts:108 | the first role row's role, or `worker` |
| UseWorkforce.SkillsRules | src/hooks/useWorkforce.ts:101-109 | admins and clients get the general skills; every other role gets three; Safety exactly for supervisors, foremen and workers |
| UseWorkforce.NoRoleRowIsWorker | src/hooks/useWorkforce.ts:108-109 | the fallback: a user record without role rows is a worker with the worker skills |
| UseWorkforce.RoleLabelAgreesWithRoleScreen | src/hooks/useWorkforce.ts:117 | the workforce role label equals the role screen's display name for every role |
| UseWorkforce.CurrentProject | src/hooks/useWorkforce.ts:118 | a non-empty project name, "Unassigned" exactly when none is known |
| UseWorkforce.BuildWorker | src/hooks/useWorkforce.ts:69-125 | the record of one user, field by field |
| UseWorkforce.BuildWorkforce | src/hooks/useWorkforce.ts:69-125 | one record per user, in order |
| UseWorkforce.WorkerForFields | src/hooks/useWorkforce.ts:111-124 | a record keeps the user's id and e-mail, has a role, a project and skills, and is off duty exactly when there is no open timesheet |
| Workforce.FilterWorkers | src/pages/Workforce.tsx:16-20 | the shown workers are those matching, in order |
| Workforce.EmptySearchShowsAll | src/pages/Workforce.tsx:16-20 | an empty search shows everyone |
| Workforce.TypingNarrows | src/pages/Workforce.tsx:16-20 | lengthening the term only narrows the list |
| Workforce.SearchIgnoresCase | src/pages/Workforce.tsx:16-20 | the search ignores the case of the term |
| Workforce.NoWorkersFoundRule | src/pages/Workforce.tsx:212-216 | the empty message appears exactly when nobody matches |
| Workforce.StatusColor | src/pages/Workforce.tsx:22-29 | green exactly on site, yellow exactly on break, grey otherwise |
| Workforce.PresenceColors | src/pages/Workforce.tsx:22-29 | each presence of the hook has its own colour |
| Workforce.OnSiteCountBounds | src/pages/Workforce.tsx:83 | the On Site card counts exactly the green workers, is at most the total, and equals it exactly when all are on site |
| Workforce.HourCardsAdd | src/pages/Workforce.tsx:96-109 | both hour cards add up worker by worker; non-negative figures give a non-negative card |
| Workforce.WeeklyBarWidth | src/pages/Workforce.tsx:192 | the bar is the share of a 40-hour week, capped at 100, full exactly from 40 hours |
| Equipment.UsagePercent | src/pages/Equipment.tsx:208 | no percentage (NaN) exactly for a zero interval; otherwise in 0 to 100 |
| Equipment.MaintenanceThresholds | src/pages/Equipment.tsx:75-82 | overdue exactly above 90 percent, due soon exactly in (75, 90], good exactly at most 75 or NaN |
| Equipment.MaintenanceIgnoresWholeIntervals | src/pages/Equipment.tsx:75-82 | only the hours since the last service matter; one more whole interval changes nothing |
| Equipment.StatusColor | src/pages/Equipment.tsx:65-73 | one colour exactly per known status, grey for the rest |
| Equipment.OperatorLabel | src/pages/Equipment.tsx:195 | the operator when there is one, and "Unassigned" exactly when the operator is empty |
| Equipment.StatCardBounds | src/pages/Equipment.tsx:109-147 | the Service Due card counts due-soon plus overdue units and is at most the total; Active plus In Maintenance is at most the total |
| Equipment.PageCards | src/pages/Equipment.tsx:10-147 | the page's units give 4, 2 active, 1 in maintenance, 2 due |
| UseEquipment.TextOr | src/hooks/useEquipment.ts:82-85 | a missing or empty text gives the default |
| UseEquipment.AmountOr0 | src/hooks/useEquipment.ts:87-88 | a missing amount gives 0 |
| UseEquipment.ServiceInterval | src/hooks/useEquipment.ts:72-76 | the category's interval: 500, 200 and 300 exactly for their categories, 250 otherwise |
| UseEquipment.DefaultIntervalRule | src/hooks/useEquipment.ts:72-83 | a missing category gets 250, the same as the "General" it is shown as |
| UseEquipment.OperatorOf | src/hooks/useEquipment.ts:61 | the unit's first operator row, or none exactly when it has none |
| UseEquipment.OperatorName | src/hooks/useEquipment.ts:62-64 | "first last" of that operator's user, or none without a user |
| UseEquipment.OperatorNameOwnRows | src/hooks/useEquipment.ts:61-64 | other units' rows never change a unit's operator; later rows of the unit are shadowed |
| UseEquipment.EquipmentDefaults | src/hooks/useEquipment.ts:78-94 | identity, status and dates pass through; the defaults are '', 'General', 'Unknown' and 0 |
| UseEquipment.BuildEquipment | src/hooks/useEquipment.ts:60-94 | the record of one unit, field by field |
| UseEquipment.BuildEquipmentList | src/hooks/useEquipment.ts:60-95 | one record per row, in order, with its row's id |

## Left out

- The guard and the sidebar take the role as an explicit optional input.
  The authentication context in src/contexts/AuthContext.tsx exposes no
  `profile`, so the role the guard reads has no definition in the core.
- Backend calls are not modelled: their outcomes are method parameters.
  This covers inserts, uploads, sign-up and login, the public URL and the
  fetched rows. The role update's delete is the one delete the core
  performs, and both of its outcomes are modelled. Query invalidation,
  retries and concurrency are not modelled.
- React rendering, effects and asynchronous ordering are not modelled.
  Toasts and navigation are returned values.
- The file reader that builds the image preview is treated as finishing at
  once; the data URL is a parameter.
- Clock readings are parameters: `Date.now()` and `new Date()` stamps, and
  the current time in the workforce hook.
- The locale time formatter for check-in times is a parameter.
- Date parsing is not modelled: check-in times are milliseconds.
- `parseInt` and `parseFloat` are function parameters; `None` stands for NaN.
- Floating-point arithmetic is exact here.
  - Hours are exact reals.
  - Ratios are exact rationals or integer cross-multiplications.
  - `toFixed(1)` on the workforce cards is not modelled.
- Case mapping is ASCII only.
- The router's percent-decoding of paths is not modelled.
- Storage serialisation (JSON) is the identity here.
- Timesheet.tsx and the other display-only pages are not part of this
  model. Nor are the add-worker dialog, the settings page and the
  authentication page.
- MyTasks.PlannedHoursCard: the fetch's filter that excludes completed
  tasks is not modelled; the card is stated over whatever list was
  fetched.
- The workforce hook's user rows are a parameter. The query's inner join
  on `user_roles` returns only users with a role row, so the no-role
  fallback of NoRoleRowIsWorker is never reached from the fetch; the join
  itself is not modelled.
- The router ranks routes by specificity, while the model takes the first
  match in declaration order. The two agree on this table because no two
  declared patterns overlap (AtMostOneRouteMatches).
- NewIncident.ValidateIncident: zod's default message for a severity
  outside the enum is not reproduced; only the fact of the issue is.
- TrainingRequiredModal.RemainingCountsUnwatched: the remaining count is
  related to the unwatched videos only for lists with distinct ids whose
  watched set holds only listed ids. The source subtracts the watched-set
  size from the list length; the caption itself is modelled for any list.
- Equipment.MaintenanceStatus: usage hours and intervals are natural
  numbers. JavaScript's `%` on negative hours is not modelled; the hook
  derives the hours from a purchase date in the past.
- UseEquipment.BuildEquipmentList: the mock usage hours are an input
  function. The source computes them from the purchase date and the clock.
- UseWorkforce.SkillsFor: the role is looked up as a map key. The source
  object would also answer inherited keys such as `constructor`; that is
  not modelled.

## Findings

| source | as written | input that shows it | evidently intended | confidence | as-written member | corrected member |
|---|---|---|---|---|---|---|
| src/components/ProtectedRoute.tsx:27-38 | the worker-only check compares `location.pathname` with `/tasks/my` and `/timesheet` exactly, but the router also matches the same routes with a trailing slash or other letter case | an admin opening `/tasks/my/` (or a client opening `/timesheet/`) is shown the page | only workers and foremen see My Tasks and Timesheet, whatever the spelling of the path | not executed | AppRoutes.WorkerPagesReachableByOtherRoles | AppRoutes.WorkerPagesOnlyForFieldRoles |
