/** The dialog that blocks a task until its training is watched,
    src/components/TrainingRequiredModal.tsx: the set of watched module ids,
    the all-watched check that enables the Start button, and the label that
    counts what is left. Durations are shown with `Training.FormatDuration`,
    the same rule as the training page. Opening the video and the two
    callbacks are effects outside the model; `HandleComplete` returns
    whether the callbacks fire. */
module TrainingRequiredModal {
  import opened Text
  import Training

  datatype TrainingItem = TrainingItem(id: string, title: string, url: string, duration: int,
                                       requiredForTaskType: string)

  /** The ids of the listed modules. */
  function Ids(training: seq<TrainingItem>): set<string>
  {
    set i | 0 <= i < |training| :: training[i].id
  }

  /** The ids of a non-empty list: the first module's and those of the rest. */
  lemma IdsCons(training: seq<TrainingItem>)
    requires training != []
    ensures Ids(training) == {training[0].id} + Ids(training[1..])
  {
    var rest := training[1..];
    forall x | x in Ids(training)
      ensures x in {training[0].id} + Ids(rest)
    {
      var i :| 0 <= i < |training| && training[i].id == x;
      if i > 0 {
        assert rest[i - 1] == training[i];
      }
    }
    forall x | x in Ids(rest)
      ensures x in Ids(training)
    {
      var i :| 0 <= i < |rest| && rest[i].id == x;
      assert training[i + 1] == rest[i];
    }
  }

  predicate DistinctIds(training: seq<TrainingItem>)
  {
    forall i, j :: 0 <= i < j < |training| ==> training[i].id != training[j].id
  }

  /** With distinct ids there are as many ids as modules. */
  lemma {:induction false} IdsCount(training: seq<TrainingItem>)
    requires DistinctIds(training)
    ensures |Ids(training)| == |training|
  {
    if training != [] {
      var rest := training[1..];
      assert DistinctIds(rest) by {
        forall i, j | 0 <= i < j < |rest|
          ensures rest[i].id != rest[j].id
        {
          assert rest[i] == training[i + 1] && rest[j] == training[j + 1];
        }
      }
      IdsCount(rest);
      IdsCons(training);
      assert forall i :: 0 <= i < |rest| ==> rest[i].id != training[0].id by {
        forall i | 0 <= i < |rest|
          ensures rest[i].id != training[0].id
        {
          assert rest[i] == training[i + 1];
        }
      }
    }
  }

  /** `allCompleted`: every listed module has been watched. */
  predicate AllCompleted(training: seq<TrainingItem>, completed: set<string>)
  {
    forall i :: 0 <= i < |training| ==> training[i].id in completed
  }

  /** The footer button: "Start Task" once everything is watched, otherwise
      "Complete <n> More" with `n` the list length minus the set size. */
  function StartLabel(training: seq<TrainingItem>, completed: set<string>): (caption: string)
    ensures caption == "Start Task" <==> AllCompleted(training, completed)
    ensures !AllCompleted(training, completed) ==>
              caption == "Complete " + IntToString(|training| - |completed|) + " More"
  {
    if AllCompleted(training, completed) then "Start Task"
    else "Complete " + IntToString(|training| - |completed|) + " More"
  }

  /** The button is disabled exactly when something is left to watch. */
  predicate StartDisabled(training: seq<TrainingItem>, completed: set<string>)
  {
    !AllCompleted(training, completed)
  }

  /** An empty list needs nothing, and the check is `Ids <= completed`. */
  lemma AllCompletedIsInclusion(training: seq<TrainingItem>, completed: set<string>)
    ensures AllCompleted(training, completed) <==> Ids(training) <= completed
    ensures training == [] ==> AllCompleted(training, completed)
  {
  }

  /** When the ids are distinct and only listed modules have been watched,
      the label's count is the number of modules not yet watched, and it is
      zero exactly when the Start button is enabled. */
  lemma {:induction false} RemainingCountsUnwatched(training: seq<TrainingItem>, completed: set<string>)
    requires DistinctIds(training)
    requires completed <= Ids(training)
    ensures |training| - |completed| == |Ids(training) - completed|
    ensures |training| - |completed| == 0 <==> AllCompleted(training, completed)
  {
    IdsCount(training);
    var ids := Ids(training);
    assert ids == (ids - completed) + completed;
    assert (ids - completed) !! completed;
    if |ids - completed| == 0 {
      assert ids - completed == {};
      assert ids <= completed;
    }
  }

  /** Watching more never undoes completion, and watching every listed
      module completes the list. */
  lemma WatchingCompletes(training: seq<TrainingItem>, completed: set<string>, more: set<string>)
    ensures AllCompleted(training, completed) ==> AllCompleted(training, completed + more)
    ensures AllCompleted(training, completed + Ids(training))
  {
  }

  class RequiredTrainingDialog {
    const training: seq<TrainingItem>
    var completed: set<string>

    constructor(training0: seq<TrainingItem>)
      ensures training == training0 && completed == {}
    {
      training := training0;
      completed := {};
    }

    /** `handleWatchVideo`: the module's id joins the set; the set only grows
        and watching again changes nothing. */
    method HandleWatchVideo(item: TrainingItem)
      modifies this
      ensures completed == old(completed) + {item.id}
      ensures old(completed) <= completed
      ensures item.id in old(completed) ==> completed == old(completed)
    {
      completed := completed + {item.id};
    }

    /** `handleComplete`: the two callbacks fire only when everything is
        watched; nothing else happens. */
    method HandleComplete() returns (completeCalled: bool, closeCalled: bool)
      ensures completeCalled == closeCalled == AllCompleted(training, completed)
    {
      completeCalled, closeCalled := false, false;
      if AllCompleted(training, completed) {
        completeCalled := true;
        closeCalled := true;
      }
    }
  }

  /** Watching each listed module in turn enables the Start button. */
  method WatchAll(dialog: RequiredTrainingDialog)
    modifies dialog
    ensures AllCompleted(dialog.training, dialog.completed)
    ensures dialog.completed == old(dialog.completed) + Ids(dialog.training)
  {
    var i := 0;
    while i < |dialog.training|
      invariant 0 <= i <= |dialog.training|
      invariant dialog.completed == old(dialog.completed) + Ids(dialog.training[..i])
    {
      var item := dialog.training[i];
      dialog.HandleWatchVideo(item);
      IdsAppend(dialog.training[..i], item);
      assert dialog.training[..i] + [item] == dialog.training[..i + 1];
      i := i + 1;
    }
    assert dialog.training[..i] == dialog.training;
  }

  lemma IdsAppend(training: seq<TrainingItem>, item: TrainingItem)
    ensures Ids(training + [item]) == Ids(training) + {item.id}
  {
    var all := training + [item];
    forall x | x in Ids(all)
      ensures x in Ids(training) + {item.id}
    {
      var i :| 0 <= i < |all| && all[i].id == x;
      if i < |training| {
        assert all[i] == training[i];
      }
    }
    forall x | x in Ids(training)
      ensures x in Ids(all)
    {
      var i :| 0 <= i < |training| && training[i].id == x;
      assert all[i] == training[i];
    }
    assert all[|training|] == item;
  }

  /** A module's duration label is the training page's. */
  function DurationLabel(item: TrainingItem): string
  {
    Training.FormatDuration(item.duration)
  }
}
