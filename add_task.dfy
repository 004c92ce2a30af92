/** The new-task dialog, src/components/AddTaskDialog.tsx: the name check,
    the normalisation of the form into the inserted row, and the dialog state
    after a submission. `parseFloat` and `parseInt` are function parameters
    (`None` for NaN, which the backend receives as null); the insert's
    outcome is a parameter. */
module AddTask {
  import opened Common
  import opened Text

  datatype TaskForm = TaskForm(name: string, description: string, plannedStartDate: string,
                               plannedEndDate: string, plannedHours: string, priority: string)

  const DefaultTaskForm := TaskForm("", "", "", "", "", "1")

  datatype TaskRow = TaskRow(name: string, description: Option<string>,
                             plannedStartDate: Option<string>, plannedEndDate: Option<string>,
                             plannedHours: Option<real>, priority: Option<int>,
                             status: string, progressPercentage: int)

  /** `text || null`: the empty string becomes null. */
  function OrNull(text: string): (r: Option<string>)
    ensures r.None? <==> text == ""
    ensures r.Some? ==> r.value == text
  {
    if text == "" then None else Some(text)
  }

  /** The row inserted for a form whose trimmed name is not empty. */
  function BuildTaskRow(form: TaskForm, parseFloat: string -> Option<real>,
                        parseInt: string -> Option<int>): (row: TaskRow)
    ensures row.name == Trim(form.name)
    ensures row.description.None? <==> AllWhitespace(form.description)
    ensures row.description.Some? ==> row.description.value == Trim(form.description)
    ensures row.plannedStartDate.None? <==> form.plannedStartDate == ""
    ensures row.plannedEndDate.None? <==> form.plannedEndDate == ""
    ensures form.plannedHours == "" ==> row.plannedHours.None?
    ensures form.plannedHours != "" ==> row.plannedHours == parseFloat(form.plannedHours)
    ensures form.priority == "" ==> row.priority == Some(1)
    ensures form.priority != "" ==> row.priority == parseInt(form.priority)
    ensures row.status == "not_started" && row.progressPercentage == 0
  {
    TaskRow(Trim(form.name), OrNull(Trim(form.description)),
            OrNull(form.plannedStartDate), OrNull(form.plannedEndDate),
            if form.plannedHours != "" then parseFloat(form.plannedHours) else None,
            if form.priority != "" then parseInt(form.priority) else Some(1),
            "not_started", 0)
  }

  /** The dialog's default form is inserted with priority 1 and no optional
      data, given a name. */
  lemma DefaultFormRow(name: string, parseFloat: string -> Option<real>, parseInt: string -> Option<int>)
    requires parseInt("1") == Some(1)
    ensures var row := BuildTaskRow(DefaultTaskForm.(name := name), parseFloat, parseInt);
            row.priority == Some(1) && row.description == None && row.plannedHours == None
            && row.plannedStartDate == None && row.plannedEndDate == None
  {
    assert AllWhitespace("");
  }

  datatype Toast = Toast(title: string, description: string, destructive: bool)

  const NameRequiredToast := Toast("Error", "Task name is required.", true)
  const CreatedToast := Toast("Task Created", "New task has been successfully created.", false)
  const FailedToast := Toast("Error", "Failed to create task. Please try again.", true)

  class AddTaskDialog {
    var form: TaskForm
    var open: bool
    var isSubmitting: bool

    constructor()
      ensures form == DefaultTaskForm && !open && !isSubmitting
    {
      form := DefaultTaskForm;
      open := false;
      isSubmitting := false;
    }

    /** The insert's outcome: success toasts, resets the form and closes the
        dialog; failure toasts and leaves both; either way submitting ends. */
    method Settle(insertOk: bool) returns (toast: Toast)
      modifies this
      ensures !isSubmitting
      ensures insertOk ==> toast == CreatedToast && form == DefaultTaskForm && !open
      ensures !insertOk ==> toast == FailedToast && form == old(form) && open == old(open)
    {
      if insertOk {
        toast := CreatedToast;
        form := DefaultTaskForm;
        open := false;
      } else {
        toast := FailedToast;
      }
      isSubmitting := false;
    }

    /** Submitting: a blank name (one whose trim is empty, that is, all
        whitespace) is refused before any insert; otherwise the built row is
        inserted, and only a successful insert resets the form and closes
        the dialog. */
    method OnSubmit(insertOk: bool, parseFloat: string -> Option<real>, parseInt: string -> Option<int>)
      returns (inserted: Option<TaskRow>, toast: Toast)
      modifies this
      ensures AllWhitespace(old(form).name) ==>
                inserted == None && toast == NameRequiredToast && form == old(form)
                && open == old(open) && isSubmitting == old(isSubmitting)
      ensures !AllWhitespace(old(form).name) ==>
                inserted == Some(BuildTaskRow(old(form), parseFloat, parseInt)) && !isSubmitting
      ensures !AllWhitespace(old(form).name) && insertOk ==>
                toast == CreatedToast && form == DefaultTaskForm && !open
      ensures !AllWhitespace(old(form).name) && !insertOk ==>
                toast == FailedToast && form == old(form) && open == old(open)
    {
      if AllWhitespace(form.name) {
        return None, NameRequiredToast;
      }
      isSubmitting := true;
      inserted := Some(BuildTaskRow(form, parseFloat, parseInt));
      toast := Settle(insertOk);
    }
  }
}
