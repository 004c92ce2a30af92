/** The "Today's Tasks" page, src/pages/TodaysTasks.tsx: the done/in-progress
    toggle, the row update the toggle sends, the `tasks` table that update
    changes, and the completed count, progress and planned-hours cards. The
    outcome of the remote update is a parameter. */
module TodaysTasks {
  import opened Common
  import opened TaskRows

  const Done := "done"
  const InProgress := "in_progress"

  /** `handleTaskToggle`'s new status: a done task goes back to in progress,
      every other status becomes done. */
  function ToggleStatus(current: string): (next: string)
    ensures next == Done || next == InProgress
    ensures next == Done <==> current != Done
  {
    if current == Done then InProgress else Done
  }

  /** Toggling twice restores a done or in-progress task; any other status
      ends up in progress. */
  lemma ToggleTwice(current: string)
    ensures current == Done || current == InProgress ==> ToggleStatus(ToggleStatus(current)) == current
    ensures current != Done && current != InProgress ==> ToggleStatus(ToggleStatus(current)) == InProgress
  {
  }

  /** The fields the mutation writes: the status, and the actual hours only
      when a task is being marked done (`None` leaves them untouched). */
  datatype TaskUpdate = TaskUpdate(status: string, actualHours: Option<real>)

  /** The update for `taskId` moving to `status`, reading the plan from the
      page's list: a missing task or plan gives zero hours. */
  function UpdateFor(tasks: seq<AssignedTask>, taskId: string, status: string): (u: TaskUpdate)
    ensures u.status == status
    ensures u.actualHours.Some? <==> status == Done
    ensures u.actualHours.Some? ==>
              u.actualHours.value == match Find(tasks, (t: AssignedTask) => t.id == taskId)
                                     case None => 0.0
                                     case Some(t) => PlannedOrZero(t)
  {
    if status == Done then
      var found := Find(tasks, (t: AssignedTask) => t.id == taskId);
      TaskUpdate(status, Some(if found.Some? then PlannedOrZero(found.value) else 0.0))
    else TaskUpdate(status, None)
  }

  /** One row after the update. */
  function Apply(t: AssignedTask, u: TaskUpdate): AssignedTask
  {
    t.(status := u.status, actualHours := if u.actualHours.Some? then u.actualHours else t.actualHours)
  }

  /** `update(u).eq('id', taskId)`: every row with that id takes the update,
      the others are untouched. */
  function UpdatedRows(rows: seq<AssignedTask>, taskId: string, u: TaskUpdate): (r: seq<AssignedTask>)
    ensures |r| == |rows|
    ensures forall i :: 0 <= i < |rows| ==>
              r[i] == if rows[i].id == taskId then Apply(rows[i], u) else rows[i]
  {
    if rows == [] then []
    else [if rows[0].id == taskId then Apply(rows[0], u) else rows[0]] + UpdatedRows(rows[1..], taskId, u)
  }

  /** What the toggle does to a row with that id: the status flips and, when
      it becomes done, the actual hours take the planned hours (or zero);
      the id, name, plan and site are never touched. */
  lemma ToggleEffect(tasks: seq<AssignedTask>, rows: seq<AssignedTask>, taskId: string, current: string, i: int)
    requires 0 <= i < |rows| && rows[i].id == taskId
    requires exists k :: 0 <= k < |tasks| && tasks[k] == rows[i]
    requires forall k, m :: 0 <= k < m < |tasks| ==> tasks[k].id != tasks[m].id
    ensures var r := UpdatedRows(rows, taskId, UpdateFor(tasks, taskId, ToggleStatus(current)))[i];
            r.status == ToggleStatus(current)
            && (current != Done ==> r.actualHours == Some(PlannedOrZero(rows[i])))
            && (current == Done ==> r.actualHours == rows[i].actualHours)
            && r.id == rows[i].id && r.name == rows[i].name
            && r.plannedHours == rows[i].plannedHours && r.siteName == rows[i].siteName
  {
    var k :| 0 <= k < |tasks| && tasks[k] == rows[i];
    var found := Find(tasks, (t: AssignedTask) => t.id == taskId);
    var j :| 0 <= j < |tasks| && tasks[j] == found.value && tasks[j].id == taskId
             && forall m :: 0 <= m < j ==> tasks[m].id != taskId;
    assert j == k;
  }

  /** Planned hours are never written, so the planned-hours card is the same
      after any update. */
  lemma {:induction false} UpdateKeepsPlannedTotal(rows: seq<AssignedTask>, taskId: string, u: TaskUpdate)
    ensures TotalPlannedHours(UpdatedRows(rows, taskId, u)) == TotalPlannedHours(rows)
  {
    if rows != [] {
      UpdateKeepsPlannedTotal(rows[1..], taskId, u);
      assert UpdatedRows(rows, taskId, u)[1..] == UpdatedRows(rows[1..], taskId, u);
    }
  }

  const UpdatedMessage := "Task status updated"
  const UpdateFailedMessage := "Failed to update task status"

  /** The `tasks` table as the mutation sees it. */
  class TaskTable {
    var rows: seq<AssignedTask>

    constructor(rows0: seq<AssignedTask>)
      ensures rows == rows0
    {
      rows := rows0;
    }

    /** The row update; `ok` is whether the backend accepted it. A rejected
        update changes nothing. */
    method Update(taskId: string, u: TaskUpdate, ok: bool) returns (message: string)
      modifies this
      ensures rows == if ok then UpdatedRows(old(rows), taskId, u) else old(rows)
      ensures message == if ok then UpdatedMessage else UpdateFailedMessage
    {
      if ok {
        rows := UpdatedRows(rows, taskId, u);
        message := UpdatedMessage;
      } else {
        message := UpdateFailedMessage;
      }
    }
  }

  /** `handleTaskToggle` followed by the mutation: the new status, the update
      built from the page's list `tasks`, applied to `table`. */
  method HandleTaskToggle(table: TaskTable, tasks: seq<AssignedTask>, taskId: string, currentStatus: string, ok: bool)
    returns (sent: TaskUpdate, message: string)
    modifies table
    ensures sent == UpdateFor(tasks, taskId, ToggleStatus(currentStatus))
    ensures table.rows == if ok then UpdatedRows(old(table.rows), taskId, sent) else old(table.rows)
    ensures TotalPlannedHours(table.rows) == TotalPlannedHours(old(table.rows))
  {
    var newStatus := if currentStatus == Done then InProgress else Done;
    sent := UpdateFor(tasks, taskId, newStatus);
    UpdateKeepsPlannedTotal(table.rows, taskId, sent);
    message := table.Update(taskId, sent, ok);
  }

  // ------------------------------------------------------------ the summary cards

  predicate IsDone(t: AssignedTask)
  {
    t.status == Done
  }

  /** `completedTasks`: the tasks whose status is done. */
  function CompletedTasks(tasks: seq<AssignedTask>): nat
  {
    CountWhere(tasks, IsDone)
  }

  /** `progressPercentage` on exact reals: the share of done tasks in percent,
      0 with no tasks. */
  function ProgressPercentage(tasks: seq<AssignedTask>): (p: real)
  {
    if |tasks| > 0 then (CompletedTasks(tasks) as real / |tasks| as real) * 100.0 else 0.0
  }

  /** The count is at most the number of tasks; the progress lies in
      [0, 100], is 0 exactly when nothing is done and 100 exactly when there
      are tasks and all of them are done. */
  lemma ProgressBounds(tasks: seq<AssignedTask>)
    ensures CompletedTasks(tasks) <= |tasks|
    ensures 0.0 <= ProgressPercentage(tasks) <= 100.0
    ensures ProgressPercentage(tasks) == 0.0 <==> forall i :: 0 <= i < |tasks| ==> !IsDone(tasks[i])
    ensures ProgressPercentage(tasks) == 100.0 <==> |tasks| > 0 && forall i :: 0 <= i < |tasks| ==> IsDone(tasks[i])
  {
    if |tasks| > 0 {
      RatioBounds(CompletedTasks(tasks) as real, |tasks| as real);
    }
  }

  lemma RatioBounds(c: real, n: real)
    requires 0.0 <= c <= n && n > 0.0
    ensures 0.0 <= c / n <= 1.0
    ensures c / n == 1.0 <==> c == n
    ensures c / n == 0.0 <==> c == 0.0
  {
    var q := c / n;
    assert q * n == c;
    assert (1.0 - q) * n == n - c;
  }
}
