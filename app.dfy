/** The task board's state and handlers (client/src/App.tsx): the fetched
    task list, the filter over it, the per-status counts, and the create,
    update, delete and status-change handlers. Each API call is an
    `ApiResult` parameter, `window.confirm` a boolean and the clock a string
    parameter. */
module TaskApp {
  import opened Wrappers
  import opened Js
  import opened TaskTypes

  const LoadError := "Failed to load tasks. Please check if the backend is running."
  const CreateError := "Failed to create task."
  const UpdateError := "Failed to update task."
  const DeleteError := "Failed to delete task."
  const StatusChangeError := "Failed to update task status."

  // ----- filteredTasks -----

  /** `filterStatus === 'all' || task.status === filterStatus`. */
  predicate MatchesStatus(t: TaskItem, filterStatus: StatusFilter)
    ensures MatchesStatus(t, filterStatus) <==>
              filterStatus == AllStatuses || (t.status == filterStatus && !filterStatus.NaN?)
  {
    StrictEquals(filterStatus, AllStatuses) || StrictEquals(t.status, filterStatus)
  }

  /** An empty query, or the lowered query inside one of the four lowered
      text fields. */
  predicate MatchesSearch(t: TaskItem, query: string)
    ensures MatchesSearch(t, query) <==>
              query == "" || OccursIgnoringCase(t.title, query) || OccursIgnoringCase(t.description, query)
              || OccursIgnoringCase(t.createdBy, query) || OccursIgnoringCase(t.assignedTo, query)
  {
    var q := Lower(query);
    query == ""
    || Includes(Lower(t.title), q)
    || Includes(Lower(t.description), q)
    || Includes(Lower(t.createdBy), q)
    || Includes(Lower(t.assignedTo), q)
  }

  /** The filter callback: a NaN filter passes nothing, and 'all' with an
      empty query passes everything. */
  predicate Keeps(t: TaskItem, filterStatus: StatusFilter, query: string)
    ensures filterStatus.NaN? ==> !Keeps(t, filterStatus, query)
    ensures filterStatus == AllStatuses && query == "" ==> Keeps(t, filterStatus, query)
  {
    MatchesStatus(t, filterStatus) && MatchesSearch(t, query)
  }

  /** `filteredTasks`: the tasks the board shows. */
  function FilteredTasks(tasks: seq<TaskItem>, filterStatus: StatusFilter, query: string): (r: seq<TaskItem>)
    ensures |r| <= |tasks|
    ensures forall i :: 0 <= i < |r| ==> r[i] in tasks && Keeps(r[i], filterStatus, query)
    ensures forall i :: 0 <= i < |tasks| && Keeps(tasks[i], filterStatus, query) ==> tasks[i] in r
  {
    Filter(tasks, (t: TaskItem) => Keeps(t, filterStatus, query))
  }

  /** A task of the list is shown iff it passes the filter callback. */
  lemma FilterKeepsExactly(tasks: seq<TaskItem>, filterStatus: StatusFilter, query: string, t: TaskItem)
    requires t in tasks
    ensures t in FilteredTasks(tasks, filterStatus, query) <==> Keeps(t, filterStatus, query)
  {
    var k :| 0 <= k < |tasks| && tasks[k] == t;
    var r := FilteredTasks(tasks, filterStatus, query);
    if t in r {
      var j :| 0 <= j < |r| && r[j] == t;
    }
  }

  /** `query` occurs in `field` when both are lowered. */
  ghost predicate OccursIgnoringCase(field: string, query: string)
  {
    exists i :: OccursAt(Lower(field), Lower(query), i)
  }

  lemma IncludesIgnoringCase(field: string, query: string)
    ensures Includes(Lower(field), Lower(query)) <==> OccursIgnoringCase(field, query)
  {
  }

  /** The filter callback passes a task iff the filter is 'all' or equals
      its status, and the query is empty or occurs, ignoring ASCII case, in
      its title, description, creator or assignee. */
  lemma {:induction false} KeepsMeaning(t: TaskItem, filterStatus: StatusFilter, query: string)
    ensures Keeps(t, filterStatus, query) <==>
      (filterStatus == AllStatuses || (t.status == filterStatus && !t.status.NaN?))
      && (query == ""
          || OccursIgnoringCase(t.title, query) || OccursIgnoringCase(t.description, query)
          || OccursIgnoringCase(t.createdBy, query) || OccursIgnoringCase(t.assignedTo, query))
  {
    IncludesIgnoringCase(t.title, query);
    IncludesIgnoringCase(t.description, query);
    IncludesIgnoringCase(t.createdBy, query);
    IncludesIgnoringCase(t.assignedTo, query);
  }

  /** The shown tasks keep the list's order: they are the list with some
      tasks left out. */
  lemma FilteredIsOrderedSubsequence(tasks: seq<TaskItem>, filterStatus: StatusFilter, query: string)
    ensures IsSubsequence(FilteredTasks(tasks, filterStatus, query), tasks)
  {
    FilterIsSubsequence(tasks, (t: TaskItem) => Keeps(t, filterStatus, query));
  }

  /** With status 'all' and an empty query the board shows the whole list. */
  lemma NoFilterShowsEverything(tasks: seq<TaskItem>)
    ensures FilteredTasks(tasks, AllStatuses, "") == tasks
  {
    FilterKeepingAll(tasks, (t: TaskItem) => Keeps(t, AllStatuses, ""));
  }

  /** Filtering a concatenation filters each part. */
  lemma FilteredOfAppend(a: seq<TaskItem>, b: seq<TaskItem>, filterStatus: StatusFilter, query: string)
    ensures FilteredTasks(a + b, filterStatus, query)
         == FilteredTasks(a, filterStatus, query) + FilteredTasks(b, filterStatus, query)
  {
    FilterConcat(a, b, (t: TaskItem) => Keeps(t, filterStatus, query));
  }

  /** The two tasks agree on every field the filter reads. */
  predicate SameFilteredFields(t: TaskItem, u: TaskItem)
  {
    t.status == u.status && t.title == u.title && t.description == u.description
    && t.createdBy == u.createdBy && t.assignedTo == u.assignedTo
  }

  /** Changing any field other than status, title, description, createdBy
      and assignedTo (id, dates, user ids) never changes what is shown. */
  lemma FilterIgnoresOtherFields(a: seq<TaskItem>, b: seq<TaskItem>, filterStatus: StatusFilter, query: string)
    requires |a| == |b|
    requires forall i :: 0 <= i < |a| ==> SameFilteredFields(a[i], b[i])
    ensures |FilteredTasks(a, filterStatus, query)| == |FilteredTasks(b, filterStatus, query)|
    ensures forall i :: 0 <= i < |a| ==>
      (a[i] in FilteredTasks(a, filterStatus, query) <==> b[i] in FilteredTasks(b, filterStatus, query))
  {
    var keep := (t: TaskItem) => Keeps(t, filterStatus, query);
    FilterSameShape(a, keep, b, keep);
  }

  /** The search ignores the case of the query. */
  lemma SearchIgnoresQueryCase(t: TaskItem, filterStatus: StatusFilter, query: string)
    ensures Keeps(t, filterStatus, query) == Keeps(t, filterStatus, Lower(query))
  {
    LowerIdempotent(query);
    assert |Lower(query)| == |query|;
  }

  // ----- getStatusCount -----

  /** `getStatusCount(status)`: `tasks.filter(task => task.status === status).length`. */
  function StatusCount(tasks: seq<TaskItem>, status: Status): (r: nat)
    ensures r <= |tasks|
  {
    |Filter(tasks, (t: TaskItem) => StrictEquals(t.status, status))|
  }

  /** The statuses of the tasks, in order. */
  function Statuses(tasks: seq<TaskItem>): (r: seq<Status>)
    ensures |r| == |tasks| && forall i :: 0 <= i < |tasks| ==> r[i] == tasks[i].status
  {
    seq(|tasks|, i requires 0 <= i < |tasks| => tasks[i].status)
  }

  /** A count is the number of tasks whose status is that value: its
      multiplicity among the tasks' statuses. NaN, which `===` never
      matches, is counted nowhere. */
  lemma {:induction false} StatusCountIsMultiplicity(tasks: seq<TaskItem>, status: Status)
    ensures StatusCount(tasks, status) == if status.NaN? then 0 else multiset(Statuses(tasks))[status]
    decreases |tasks|
  {
    if tasks != [] {
      StatusCountIsMultiplicity(tasks[1..], status);
      StatusCountCons(tasks, status);
      StatusesCons(tasks);
    }
  }

  lemma StatusCountCons(tasks: seq<TaskItem>, status: Status)
    requires tasks != []
    ensures StatusCount(tasks, status)
            == (if StrictEquals(tasks[0].status, status) then 1 else 0) + StatusCount(tasks[1..], status)
  {
    var matches := (t: TaskItem) => StrictEquals(t.status, status);
    assert Filter(tasks, matches) == (if matches(tasks[0]) then [tasks[0]] else []) + Filter(tasks[1..], matches);
  }

  lemma StatusesCons(tasks: seq<TaskItem>)
    requires tasks != []
    ensures multiset(Statuses(tasks)) == multiset{tasks[0].status} + multiset(Statuses(tasks[1..]))
  {
    assert Statuses(tasks) == [tasks[0].status] + Statuses(tasks[1..]);
  }

  lemma StatusCountIsFilteredCount(tasks: seq<TaskItem>, status: Status)
    requires IsKnown(status)
    ensures StatusCount(tasks, status) == |FilteredTasks(tasks, status, "")|
  {
    FilterAgreeing(tasks, (t: TaskItem) => StrictEquals(t.status, status), (t: TaskItem) => Keeps(t, status, ""));
  }

  /** When every task carries one of the three codes, the Pending,
      In Progress and Completed counts add up to the total. */
  lemma StatusCountsSumToTotal(tasks: seq<TaskItem>)
    requires forall i :: 0 <= i < |tasks| ==> IsKnown(tasks[i].status)
    ensures StatusCount(tasks, Pending) + StatusCount(tasks, InProgress) + StatusCount(tasks, Done) == |tasks|
  {
    FilterPartition3(tasks,
      (t: TaskItem) => StrictEquals(t.status, Pending),
      (t: TaskItem) => StrictEquals(t.status, InProgress),
      (t: TaskItem) => StrictEquals(t.status, Done));
  }

  // ----- the list transformations behind the setters -----

  /** `prev.map(t => t.id === id ? f(t) : t)`. */
  function MapWhereId(tasks: seq<TaskItem>, id: int, f: TaskItem -> TaskItem): (r: seq<TaskItem>)
    ensures |r| == |tasks|
    ensures forall i :: 0 <= i < |tasks| ==> r[i] == if tasks[i].id == id then f(tasks[i]) else tasks[i]
  {
    seq(|tasks|, i requires 0 <= i < |tasks| => if tasks[i].id == id then f(tasks[i]) else tasks[i])
  }

  /** `{ ...task, ...taskData, updatedAt: now }`: the request's six fields
      over the task's (an absent due date leaves the task's), then the
      update time. */
  function Overlay(t: TaskItem, data: TaskRequest, now: string): (r: TaskItem)
    ensures r.id == t.id && r.createdAt == t.createdAt
    ensures r.createdById == t.createdById && r.assignedToId == t.assignedToId
    ensures r.title == data.title && r.description == data.description && r.status == data.status
    ensures r.createdBy == data.createdBy && r.assignedTo == data.assignedTo
    ensures r.dueDate == if data.dueDate.Some? then data.dueDate else t.dueDate
    ensures r.updatedAt == Some(now)
  {
    t.(title := data.title, description := data.description,
       dueDate := if data.dueDate.Some? then data.dueDate else t.dueDate,
       status := data.status, createdBy := data.createdBy, assignedTo := data.assignedTo,
       updatedAt := Some(now))
  }

  /** `prev.map(...)` in `handleUpdateTask`: the tasks with the id take the
      request, and every other task is kept. */
  function UpdatedTasks(tasks: seq<TaskItem>, id: int, data: TaskRequest, now: string): (r: seq<TaskItem>)
    ensures |r| == |tasks|
    ensures forall i :: 0 <= i < |tasks| ==> r[i] == if tasks[i].id == id then Overlay(tasks[i], data, now) else tasks[i]
  {
    MapWhereId(tasks, id, (t: TaskItem) => Overlay(t, data, now))
  }

  /** `{ ...task, status, updatedAt: now }`: only the status and the update
      time differ from the task. */
  function StatusChanged(t: TaskItem, status: Status, now: string): (r: TaskItem)
    ensures r.status == status && r.updatedAt == Some(now)
    ensures r.(status := t.status, updatedAt := t.updatedAt) == t
  {
    t.(status := status, updatedAt := Some(now))
  }

  /** `prev.map(...)` in `handleStatusChange`. */
  function StatusChangedTasks(tasks: seq<TaskItem>, id: int, status: Status, now: string): (r: seq<TaskItem>)
    ensures |r| == |tasks|
    ensures forall i :: 0 <= i < |tasks| ==> r[i] == if tasks[i].id == id then StatusChanged(tasks[i], status, now) else tasks[i]
  {
    MapWhereId(tasks, id, (t: TaskItem) => StatusChanged(t, status, now))
  }

  /** `prev.filter(task => task.id !== id)`. */
  function RemoveTask(tasks: seq<TaskItem>, id: int): (r: seq<TaskItem>)
    ensures |r| <= |tasks|
    ensures forall i :: 0 <= i < |r| ==> r[i] in tasks && r[i].id != id
    ensures forall i :: 0 <= i < |tasks| && tasks[i].id != id ==> tasks[i] in r
  {
    Filter(tasks, (t: TaskItem) => t.id != id)
  }

  /** `tasks.find(t => t.id === id)`: the first task with that id. */
  function FindById(tasks: seq<TaskItem>, id: int): (r: Option<TaskItem>)
    ensures r.None? <==> forall i :: 0 <= i < |tasks| ==> tasks[i].id != id
    ensures r.Some? ==> exists i :: 0 <= i < |tasks| && tasks[i] == r.value
                                  && forall j :: 0 <= j < i ==> tasks[j].id != id
    ensures r.Some? ==> r.value.id == id
  {
    if tasks == [] then None
    else if tasks[0].id == id then Some(tasks[0])
    else
      var r := FindById(tasks[1..], id);
      assert r.Some? ==> exists i :: 0 <= i < |tasks[1..]| && tasks[1..][i] == r.value
                                     && forall j :: 0 <= j < i ==> tasks[1..][j].id != id;
      r
  }

  /** The body `handleStatusChange` sends: the found task's fields with the
      new status. */
  function StatusChangeRequest(t: TaskItem, status: Status): (r: TaskRequest)
    ensures r.status == status
    ensures r.title == t.title && r.description == t.description && r.dueDate == t.dueDate
    ensures r.createdBy == t.createdBy && r.assignedTo == t.assignedTo
  {
    TaskRequest(t.title, t.description, t.dueDate, status, t.createdBy, t.assignedTo)
  }

  /** An update keeps the list's length, every id and every creation time,
      leaves tasks with another id as they were, and gives the tasks with the
      edited id the request's fields and the update time. */
  lemma UpdateTouchesOnlyTheEditedTask(tasks: seq<TaskItem>, id: int, data: TaskRequest, now: string)
    ensures var r := UpdatedTasks(tasks, id, data, now);
      && |r| == |tasks|
      && (forall i :: 0 <= i < |tasks| ==> r[i].id == tasks[i].id && r[i].createdAt == tasks[i].createdAt)
      && (forall i :: 0 <= i < |tasks| && tasks[i].id != id ==> r[i] == tasks[i])
      && (forall i :: 0 <= i < |tasks| && tasks[i].id == id ==>
            r[i].title == data.title && r[i].description == data.description
            && r[i].status == data.status && r[i].createdBy == data.createdBy
            && r[i].assignedTo == data.assignedTo && r[i].updatedAt == Some(now))
  {
  }

  /** A status change keeps every field but status and update time, and
      touches only the tasks with that id. */
  lemma StatusChangeTouchesOnlyThatTask(tasks: seq<TaskItem>, id: int, status: Status, now: string)
    ensures var r := StatusChangedTasks(tasks, id, status, now);
      && |r| == |tasks|
      && (forall i :: 0 <= i < |tasks| && tasks[i].id != id ==> r[i] == tasks[i])
      && (forall i :: 0 <= i < |tasks| && tasks[i].id == id ==>
            r[i] == tasks[i].(status := status, updatedAt := Some(now)))
  {
  }

  /** Deleting removes exactly the tasks with that id and keeps the others
      in their order; with no such task the list is unchanged. */
  lemma DeleteRemovesExactlyThatId(tasks: seq<TaskItem>, id: int)
    ensures forall i :: 0 <= i < |RemoveTask(tasks, id)| ==> RemoveTask(tasks, id)[i].id != id
    ensures forall i :: 0 <= i < |tasks| && tasks[i].id != id ==> tasks[i] in RemoveTask(tasks, id)
    ensures IsSubsequence(RemoveTask(tasks, id), tasks)
    ensures (forall i :: 0 <= i < |tasks| ==> tasks[i].id != id) ==> RemoveTask(tasks, id) == tasks
  {
    FilterIsSubsequence(tasks, (t: TaskItem) => t.id != id);
    if forall i :: 0 <= i < |tasks| ==> tasks[i].id != id {
      FilterKeepingAll(tasks, (t: TaskItem) => t.id != id);
    }
  }

  // ----- the App component's state -----

  class App {
    var tasks: seq<TaskItem>
    var loading: bool
    var error: Option<string>
    var showForm: bool
    var editingTask: Option<TaskItem>

    /** The initial `useState` values. */
    constructor()
      ensures tasks == [] && loading && error == None && !showForm && editingTask == None
    {
      tasks := [];
      loading := true;
      error := None;
      showForm := false;
      editingTask := None;
    }

    /** `loadTasks`, run once on mount. */
    method LoadTasks(fetched: ApiResult<seq<TaskItem>>)
      modifies this
      ensures !loading && showForm == old(showForm) && editingTask == old(editingTask)
      ensures fetched.Ok? ==> tasks == fetched.value && error == None
      ensures fetched.Failed? ==> tasks == old(tasks) && error == Some(LoadError)
    {
      loading := true;
      if fetched.Ok? {
        tasks := fetched.value;
        error := None;
      } else {
        error := Some(LoadError);
      }
      loading := false;
    }

    /** "+ Add New Task". */
    method OpenForm()
      modifies this`showForm
      ensures showForm
    {
      showForm := true;
    }

    /** The create form's cancel button. */
    method CancelForm()
      modifies this`showForm
      ensures !showForm
    {
      showForm := false;
    }

    /** A card's Edit button (`onEdit={setEditingTask}`). */
    method StartEditing(t: TaskItem)
      modifies this`editingTask
      ensures editingTask == Some(t)
    {
      editingTask := Some(t);
    }

    /** The edit form's cancel button. */
    method CancelEditing()
      modifies this`editingTask
      ensures editingTask == None
    {
      editingTask := None;
    }

    /** `handleCreateTask`: on success the task the API returns is appended
        and the form closes; on failure only the error is set. */
    method HandleCreateTask(created: ApiResult<TaskItem>)
      modifies this
      ensures loading == old(loading) && editingTask == old(editingTask)
      ensures created.Ok? ==> tasks == old(tasks) + [created.value] && !showForm && error == None
      ensures created.Failed? ==> tasks == old(tasks) && showForm == old(showForm) && error == Some(CreateError)
    {
      if created.Ok? {
        tasks := tasks + [created.value];
        showForm := false;
        error := None;
      } else {
        error := Some(CreateError);
      }
    }

    /** `handleUpdateTask`: nothing happens unless a task is being edited;
        on success the tasks with the edited id take the request's fields and
        the update time, and the edit form closes; on failure only the error
        is set. */
    method HandleUpdateTask(data: TaskRequest, outcome: ApiResult<()>, now: string)
      modifies this
      ensures loading == old(loading) && showForm == old(showForm)
      ensures old(editingTask).None? ==>
        tasks == old(tasks) && error == old(error) && editingTask == None
      ensures old(editingTask).Some? && outcome.Ok? ==>
        tasks == UpdatedTasks(old(tasks), old(editingTask).value.id, data, now)
        && editingTask == None && error == None
      ensures old(editingTask).Some? && outcome.Failed? ==>
        tasks == old(tasks) && editingTask == old(editingTask) && error == Some(UpdateError)
    {
      if editingTask.None? {
        return;
      }
      if outcome.Ok? {
        tasks := UpdatedTasks(tasks, editingTask.value.id, data, now);
        editingTask := None;
        error := None;
      } else {
        error := Some(UpdateError);
      }
    }

    /** `handleDeleteTask`: a declined confirmation changes nothing; on
        success the tasks with that id are removed; on failure only the error
        is set. */
    method HandleDeleteTask(id: int, confirmed: bool, outcome: ApiResult<()>)
      modifies this
      ensures loading == old(loading) && showForm == old(showForm) && editingTask == old(editingTask)
      ensures !confirmed ==> tasks == old(tasks) && error == old(error)
      ensures confirmed && outcome.Ok? ==> tasks == RemoveTask(old(tasks), id) && error == None
      ensures confirmed && outcome.Failed? ==> tasks == old(tasks) && error == Some(DeleteError)
    {
      if !confirmed {
        return;
      }
      if outcome.Ok? {
        tasks := RemoveTask(tasks, id);
        error := None;
      } else {
        error := Some(DeleteError);
      }
    }

    /** `handleStatusChange`: an unknown id changes nothing and calls no API;
        otherwise the found task's fields go to the API with the new status,
        and on success the tasks with that id take the status and the update
        time; on failure only the error is set. Returns the request body
        sent, if any. */
    method HandleStatusChange(id: int, status: Status, outcome: ApiResult<()>, now: string)
      returns (sent: Option<TaskRequest>)
      modifies this
      ensures loading == old(loading) && showForm == old(showForm) && editingTask == old(editingTask)
      ensures sent == if FindById(old(tasks), id).Some?
                      then Some(StatusChangeRequest(FindById(old(tasks), id).value, status))
                      else None
      ensures sent.None? ==> tasks == old(tasks) && error == old(error)
      ensures sent.Some? && outcome.Ok? ==>
        tasks == StatusChangedTasks(old(tasks), id, status, now) && error == None
      ensures sent.Some? && outcome.Failed? ==> tasks == old(tasks) && error == Some(StatusChangeError)
    {
      var found := FindById(tasks, id);
      if found.None? {
        return None;
      }
      sent := Some(StatusChangeRequest(found.value, status));
      if outcome.Ok? {
        tasks := StatusChangedTasks(tasks, id, status, now);
        error := None;
      } else {
        error := Some(StatusChangeError);
      }
    }
  }
}
