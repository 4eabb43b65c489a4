/** The status select on a task card (client/src/components/Task.tsx), whose
    change handler passes the chosen option on to App's `handleStatusChange`.

    The handler casts the select's string value to `TaskStatus` without
    converting it, so the status stored on success is a string such as "1",
    which no `===` against the numeric codes matches. The form's status
    select (TaskForm.tsx) passes its value through `Number` instead; the
    corrected handler below does the same. */
module TaskCard {
  import opened Wrappers
  import opened Js
  import opened TaskTypes
  import StatusUtils
  import TaskApp

  /** `e.target.value as unknown as TaskStatus`: the option's string, kept
      as a string. */
  function SelectedStatusAsWritten(value: string): (r: Status)
    ensures r.Str? && !IsKnown(r)
  {
    Str(value)
  }

  /** The evidently intended handler: the option's value read as a number. */
  function SelectedStatus(value: string): (r: Status)
    ensures r.Num? <==> AllDigits(value)
    ensures !r.Str?
  {
    Number(value)
  }

  /** As written, choosing the option for code `n` (its value is `n` in
      decimal) and having the API accept the change leaves the task with the
      string status: the badge reads 'Unknown', filtering by that code hides
      the task, and none of the three counts includes it. */
  lemma AsWrittenStatusChoiceIsLost(t: TaskItem, n: nat, now: string)
    requires n <= 2
    ensures SelectedStatusAsWritten(DecimalString(n)) != Num(n)
    ensures var r := TaskApp.StatusChangedTasks([t], t.id, SelectedStatusAsWritten(DecimalString(n)), now);
            && |r| == 1
            && r[0].status == Str(DecimalString(n))
            && StatusUtils.StatusText(r[0].status) == "Unknown"
            && TaskApp.FilteredTasks(r, Num(n), "") == []
            && TaskApp.StatusCount(r, Pending) + TaskApp.StatusCount(r, InProgress) + TaskApp.StatusCount(r, Done) == 0
  {
    var r := TaskApp.StatusChangedTasks([t], t.id, SelectedStatusAsWritten(DecimalString(n)), now);
    assert r == [t.(status := Str(DecimalString(n)), updatedAt := Some(now))];
    assert r[1..] == [];
  }

  /** With the conversion, choosing the option for code `n` stores the code:
      every status stays one of the three, the counts still add up to the
      total, and the changed tasks read correctly and pass the filter for
      their new status. */
  lemma CorrectedStatusChoiceIsKept(tasks: seq<TaskItem>, id: int, n: nat, now: string)
    requires n <= 2
    requires forall i :: 0 <= i < |tasks| ==> IsKnown(tasks[i].status)
    ensures SelectedStatus(DecimalString(n)) == Num(n)
    ensures var r := TaskApp.StatusChangedTasks(tasks, id, SelectedStatus(DecimalString(n)), now);
            && (forall i :: 0 <= i < |r| ==> IsKnown(r[i].status))
            && TaskApp.StatusCount(r, Pending) + TaskApp.StatusCount(r, InProgress) + TaskApp.StatusCount(r, Done) == |r|
            && (forall i :: 0 <= i < |r| && r[i].id == id ==>
                  r[i].status == Num(n) && StatusUtils.StatusText(r[i].status) != "Unknown"
                  && r[i] in TaskApp.FilteredTasks(r, Num(n), ""))
  {
    NumberOfDecimalString(n);
    var r := TaskApp.StatusChangedTasks(tasks, id, SelectedStatus(DecimalString(n)), now);
    assert forall i :: 0 <= i < |r| ==> IsKnown(r[i].status);
    TaskApp.StatusCountsSumToTotal(r);
  }
}
