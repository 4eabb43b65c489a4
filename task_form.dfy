/** The create/edit form (client/src/components/TaskForm.tsx): its field
    values, the change handler, the edit-mode prefill and the submission. */
module TaskForm {
  import opened Wrappers
  import opened Js
  import opened TaskTypes
  import TaskApp

  /** `formData`, a `CreateTaskRequest` whose due date is always a string
      (the empty string when none is chosen). */
  datatype FormData = FormData(
    title: string,
    description: string,
    dueDate: string,
    status: Status,
    createdBy: string,
    assignedTo: string)

  /** The `name` attributes of the form's inputs. */
  datatype Field = Title | Description | DueDate | StatusField | CreatedBy | AssignedTo

  /** The initial `useState` value. */
  const InitialFormData: FormData := FormData("", "", "", Pending, "", "")

  /** The edit-mode prefill: the task's fields, a missing due date as ''. */
  function FormFromTask(t: TaskItem): (r: FormData)
    ensures r.title == t.title && r.description == t.description && r.status == t.status
    ensures r.createdBy == t.createdBy && r.assignedTo == t.assignedTo
    ensures r.dueDate == if t.dueDate.Some? then t.dueDate.value else ""
  {
    FormData(t.title, t.description, t.dueDate.GetOr(""), t.status, t.createdBy, t.assignedTo)
  }

  /** The value an input shows, as the runtime holds it. */
  function FieldValue(fd: FormData, name: Field): Value
  {
    match name
    case Title => Str(fd.title)
    case Description => Str(fd.description)
    case DueDate => Str(fd.dueDate)
    case StatusField => fd.status
    case CreatedBy => Str(fd.createdBy)
    case AssignedTo => Str(fd.assignedTo)
  }

  /** `handleChange`: the named field takes the input's value, passed
      through `Number` for the status select; the other fields keep theirs. */
  function SetField(fd: FormData, name: Field, value: string): (r: FormData)
    ensures FieldValue(r, name) == if name == StatusField then Number(value) else Str(value)
    ensures forall other: Field :: other != name ==> FieldValue(r, other) == FieldValue(fd, other)
  {
    match name
    case Title => fd.(title := value)
    case Description => fd.(description := value)
    case DueDate => fd.(dueDate := value)
    case StatusField => fd.(status := Number(value))
    case CreatedBy => fd.(createdBy := value)
    case AssignedTo => fd.(assignedTo := value)
  }

  /** The status options carry the codes in decimal, so choosing one stores
      the code itself, a number the filter and the counts compare equal. */
  lemma StatusOptionStoresTheCode(fd: FormData, n: nat)
    ensures SetField(fd, StatusField, DecimalString(n)).status == Num(n)
  {
    NumberOfDecimalString(n);
  }

  /** The request body `onSubmit` receives: the form's fields, with the due
      date string always present. */
  function ToRequest(fd: FormData): (r: TaskRequest)
    ensures r.title == fd.title && r.description == fd.description && r.dueDate == Some(fd.dueDate)
    ensures r.status == fd.status && r.createdBy == fd.createdBy && r.assignedTo == fd.assignedTo
  {
    TaskRequest(fd.title, fd.description, Some(fd.dueDate), fd.status, fd.createdBy, fd.assignedTo)
  }

  /** Saving an edit form nobody touched writes back the task as it was,
      apart from the update time, and a missing due date, which comes back as
      the empty string. */
  lemma UneditedSaveKeepsTheTask(t: TaskItem, now: string)
    ensures TaskApp.Overlay(t, ToRequest(FormFromTask(t)), now)
            == t.(dueDate := Some(t.dueDate.GetOr("")), updatedAt := Some(now))
  {
  }

  /** `required` on the title and creator inputs: the browser submits only
      when both are non-empty. */
  predicate Submittable(fd: FormData)
  {
    fd.title != "" && fd.createdBy != ""
  }

  /** A form still at its initial value cannot be submitted: it starts
      Pending, with the required title and creator empty. */
  lemma InitialFormIsNotSubmittable()
    ensures InitialFormData.status == Pending && !Submittable(InitialFormData)
  {
  }

  /** The form's state for one mounting of the component. */
  class TaskFormState {
    var formData: FormData

    /** `useState` followed by the effect's first run. */
    constructor(task: Option<TaskItem>, isEditing: bool)
      ensures formData == if task.Some? && isEditing then FormFromTask(task.value) else InitialFormData
    {
      formData := InitialFormData;
      new;
      EditEffect(task, isEditing);
    }

    /** The effect on `[task, isEditing]`: in edit mode with a task, the form
        is overwritten with the task's fields; otherwise nothing changes. */
    method EditEffect(task: Option<TaskItem>, isEditing: bool)
      modifies this
      ensures formData == if task.Some? && isEditing then FormFromTask(task.value) else old(formData)
    {
      if task.Some? && isEditing {
        formData := FormFromTask(task.value);
      }
    }

    /** A change event from the input named `name`. */
    method HandleChange(name: Field, value: string)
      modifies this
      ensures formData == SetField(old(formData), name, value)
    {
      formData := SetField(formData, name, value);
    }

    /** A submit attempt: blocked by the browser while a required field is
        empty; otherwise `onSubmit` receives the form's fields. */
    method HandleSubmit() returns (submitted: Option<TaskRequest>)
      ensures submitted.Some? <==> formData.title != "" && formData.createdBy != ""
      ensures submitted.Some? ==>
        && submitted.value.title == formData.title
        && submitted.value.description == formData.description
        && submitted.value.dueDate == Some(formData.dueDate)
        && submitted.value.status == formData.status
        && submitted.value.createdBy == formData.createdBy
        && submitted.value.assignedTo == formData.assignedTo
    {
      if Submittable(formData) {
        submitted := Some(ToRequest(formData));
      } else {
        submitted := None;
      }
    }
  }
}
