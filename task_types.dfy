/** The client's task records and the request bodies it sends
    (client/src/types/task.ts). */
module TaskTypes {
  import opened Wrappers
  import opened Js

  /** A `TaskStatus` as the runtime holds it (see `Js.Value`). */
  type Status = Value

  const Pending: Status := Num(0)
  const InProgress: Status := Num(1)
  const Done: Status := Num(2)

  /** One of the three codes the `TaskStatus` constant declares. */
  predicate IsKnown(s: Status)
    ensures IsKnown(s) <==> s.Num? && 0 <= s.n <= 2
  {
    s == Pending || s == InProgress || s == Done
  }

  /** The value of the status filter, `TaskStatus | 'all'`. */
  type StatusFilter = Value

  const AllStatuses: StatusFilter := Str("all")

  /** A task as fetched from the API. Dates are the ISO strings the API returns. */
  datatype TaskItem = TaskItem(
    id: int,
    title: string,
    description: string,
    dueDate: Option<string>,
    status: Status,
    createdBy: string,
    assignedTo: string,
    createdAt: string,
    updatedAt: Option<string>,
    createdById: Option<int>,
    assignedToId: Option<int>)

  /** `CreateTaskRequest` and `UpdateTaskRequest`, which declare the same
      fields. An absent `dueDate` is `None`. */
  datatype TaskRequest = TaskRequest(
    title: string,
    description: string,
    dueDate: Option<string>,
    status: Status,
    createdBy: string,
    assignedTo: string)

  /** How an awaited API call ended: a response body, or a thrown error. */
  datatype ApiResult<+T> = Ok(value: T) | Failed
}
