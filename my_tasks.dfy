/** The "My Tasks" page, src/pages/MyTasks.tsx: the status label and
    colour, where a row click leads, and the in-progress and planned-hours
    cards over the fetched task list. */
module MyTasks {
  import opened Common
  import opened Text
  import opened TaskRows
  import AppRoutes

  /** `formatStatus`: the first underscore becomes a space, then every
      character starting a word is upper-cased. */
  function FormatStatus(status: string): (text: string)
    ensures |text| == |status|
  {
    FirstUnderscoreLabel(status)
  }

  /** The status the blue badge belongs to reads "In Progress". */
  lemma InProgressLabel(status: string)
    requires status == "in_progress"
    ensures FormatStatus(status) == "In Progress"
  {
    var a, b := "in", "progress";
    assert a + "_" + b == "in_progress";
    assert CapitalizeFirst(a) + " " + CapitalizeFirst(b) == "In Progress";
    assert LowerWord(a) && LowerWord(b);
    FirstUnderscoreLabelTwoWords(a, b);
  }

  const BlueBadge := "bg-blue-100 text-blue-800"
  const YellowBadge := "bg-yellow-100 text-yellow-800"
  const GrayBadge := "bg-gray-100 text-gray-800"

  /** `getStatusColor`: blue for in progress, yellow for pending, grey for
      everything else (planned included). */
  function StatusColor(status: string): (c: string)
    ensures c == BlueBadge <==> status == "in_progress"
    ensures c == YellowBadge <==> status == "pending"
    ensures c == GrayBadge <==> status != "in_progress" && status != "pending"
  {
    match status
    case "in_progress" => BlueBadge
    case "pending" => YellowBadge
    case "planned" => GrayBadge
    case _ => GrayBadge
  }

  /** `handleRowClick`'s navigation target. */
  function RowClickTarget(taskId: string): (path: string)
    ensures IsPrefix("/tasks/", path) && path[|"/tasks/"|..] == taskId
  {
    "/tasks/" + taskId
  }

  /** The route table declares no `/tasks/:id`, so a row click on a task id
      (anything but the literal paths `my` and `today`) reaches the not-found
      page. */
  lemma RowClickShowsNotFound(taskId: string)
    requires taskId != [] && '/' !in taskId
    requires Lower(taskId) != "my" && Lower(taskId) != "today"
    ensures AppRoutes.Resolve(RowClickTarget(taskId)) == AppRoutes.CatchAll
    ensures AppRoutes.Resolve(RowClickTarget(taskId)).page == AppRoutes.NotFoundPage
  {
    var first := "tasks";
    assert "/" + first + "/" == "/tasks/";
    LowerOfLowercase(first);
    AppRoutes.TaskIdsAreNotFound(first, taskId);
  }

  predicate IsInProgress(t: AssignedTask)
  {
    t.status == "in_progress"
  }

  /** The "In Progress" card. */
  function InProgressCount(tasks: seq<AssignedTask>): nat
  {
    CountWhere(tasks, IsInProgress)
  }

  /** The in-progress count is at most the number of tasks and counts exactly
      the in-progress ones, which are the blue rows. */
  lemma InProgressCountIsBlueRows(tasks: seq<AssignedTask>)
    ensures InProgressCount(tasks) <= |tasks|
    ensures InProgressCount(tasks) == |Filter(tasks, (t: AssignedTask) => StatusColor(t.status) == BlueBadge)|
  {
    FilterCongruent(tasks, IsInProgress, (t: AssignedTask) => StatusColor(t.status) == BlueBadge);
  }

  /** The "Total Planned Hours" card is the shared planned-hours total. */
  function PlannedHoursCard(tasks: seq<AssignedTask>): (total: real)
    ensures total == TotalPlannedHours(Filter(tasks, HasPlan))
  {
    TotalPlannedHoursOfPlanned(tasks);
    TotalPlannedHours(tasks)
  }
}
