/** Rows of tasks as the "My Tasks" and "Today's Tasks" pages fetch
    (id, name, status, planned and actual hours, and the site's name), and
    the planned-hours total both pages show. Hours are numbers that may be
    missing; they are modelled as exact reals. */
module TaskRows {
  import opened Common

  datatype AssignedTask = AssignedTask(id: string, name: string, status: string,
                                       plannedHours: Option<real>, actualHours: Option<real>,
                                       siteName: Option<string>)

  /** `t.planned_hours || 0`: a missing plan counts as zero hours. */
  function PlannedOrZero(t: AssignedTask): real
  {
    t.plannedHours.GetOr(0.0)
  }

  predicate HasPlan(t: AssignedTask)
  {
    t.plannedHours.Some?
  }

  /** `reduce((acc, t) => acc + (t.planned_hours || 0), 0)`. */
  function TotalPlannedHours(tasks: seq<AssignedTask>): real
  {
    SumBy(tasks, PlannedOrZero)
  }

  /** Tasks without a plan contribute nothing: the total is the sum over the
      planned tasks alone, and it splits over concatenation. */
  lemma {:induction false} TotalPlannedHoursOfPlanned(tasks: seq<AssignedTask>)
    ensures TotalPlannedHours(tasks) == TotalPlannedHours(Filter(tasks, HasPlan))
  {
    if tasks != [] {
      TotalPlannedHoursOfPlanned(tasks[1..]);
      if HasPlan(tasks[0]) {
        assert Filter(tasks, HasPlan) == [tasks[0]] + Filter(tasks[1..], HasPlan);
        assert ([tasks[0]] + Filter(tasks[1..], HasPlan))[1..] == Filter(tasks[1..], HasPlan);
      }
    }
  }

  lemma TotalPlannedHoursAppend(a: seq<AssignedTask>, b: seq<AssignedTask>)
    ensures TotalPlannedHours(a + b) == TotalPlannedHours(a) + TotalPlannedHours(b)
  {
    SumByAppend(a, b, PlannedOrZero);
  }

  /** With no negative plans the total is never negative. */
  lemma TotalPlannedHoursNonNegative(tasks: seq<AssignedTask>)
    requires forall i :: 0 <= i < |tasks| && HasPlan(tasks[i]) ==> tasks[i].plannedHours.value >= 0.0
    ensures TotalPlannedHours(tasks) >= 0.0
  {
    SumByNonNegative(tasks, PlannedOrZero);
  }
}
