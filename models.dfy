/** The server's entities (api/Models/TaskItem.cs, api/Models/User.cs): their
    fields, the values a new instance starts with, and the validity their
    `[Required]`/`[MaxLength]` attributes and the matching `OnModelCreating`
    configuration (api/Data/TaskManagerContext.cs) declare. */
module Models {
  import opened Wrappers

  /** A `DateTime`, as its count of 100-nanosecond ticks. */
  type DateTime = int

  const TicksPerDay: int := 864_000_000_000

  /** `d.AddDays(days)` for a whole number of days. */
  function AddDays(d: DateTime, days: int): (r: DateTime)
    ensures days < 0 ==> r < d
    ensures days > 0 ==> r > d
  {
    d + days * TicksPerDay
  }

  datatype TaskStatus = Pending | InProgress | Done

  /** `HasConversion<string>()`: the status column holds the member's name. */
  function StatusName(s: TaskStatus): string
  {
    match s
    case Pending => "Pending"
    case InProgress => "InProgress"
    case Done => "Done"
  }

  /** Reading the column back: a member name gives that member, anything
      else gives nothing. */
  function ParseStatusName(name: string): (r: Option<TaskStatus>)
    ensures r.Some? ==> StatusName(r.value) == name
  {
    if name == "Pending" then Some(Pending)
    else if name == "InProgress" then Some(InProgress)
    else if name == "Done" then Some(Done)
    else None
  }

  /** The stored name reads back as the same status, and only the three
      names read back as anything. */
  lemma StatusNameRoundTrip(s: TaskStatus, name: string)
    ensures ParseStatusName(StatusName(s)) == Some(s)
    ensures ParseStatusName(name) == Some(s) <==> name == StatusName(s)
  {
  }

  /** `TaskItem`, with the `CreatedById` and `AssignedToId` foreign keys the
      context configures. */
  datatype TaskItem = TaskItem(
    id: int,
    title: string,
    description: string,
    dueDate: Option<DateTime>,
    status: TaskStatus,
    createdBy: string,
    assignedTo: string,
    createdAt: DateTime,
    updatedAt: Option<DateTime>,
    createdById: Option<int>,
    assignedToId: Option<int>)

  /** `User`; the two navigation collections hold the user's tasks. */
  datatype User = User(
    id: int,
    email: string,
    name: string,
    firstName: Option<string>,
    lastName: Option<string>,
    picture: Option<string>,
    provider: string,
    providerId: Option<string>,
    createdAt: DateTime,
    lastLoginAt: Option<DateTime>,
    isActive: bool,
    createdTasks: seq<TaskItem>,
    assignedTasks: seq<TaskItem>)

  // ----- [Required] and [MaxLength] -----

  /** The characters `char.IsWhiteSpace` accepts among the ASCII and Latin-1
      ones. */
  predicate IsWhiteSpace(c: char)
  {
    c == ' ' || '\t' <= c <= '\r' || c == '\U{0085}' || c == '\U{00A0}'
  }

  /** `[Required]` on a string: present and not empty once trimmed, that is,
      some character is not white space. */
  function HasNonWhiteSpace(s: string): (r: bool)
    ensures r <==> exists i :: 0 <= i < |s| && !IsWhiteSpace(s[i])
  {
    if s == [] then false
    else if !IsWhiteSpace(s[0]) then true
    else
      var r := HasNonWhiteSpace(s[1..]);
      assert forall i :: 1 <= i < |s| ==> s[i] == s[1..][i - 1];
      r
  }

  /** A required value is never empty, and a value of white space alone
      counts as missing. */
  lemma RequiredMeansNonBlank(s: string)
    ensures HasNonWhiteSpace(s) ==> |s| > 0
    ensures (forall i :: 0 <= i < |s| ==> IsWhiteSpace(s[i])) ==> !HasNonWhiteSpace(s)
  {
  }

  /** `[MaxLength(n)]` on an optional string. */
  predicate OptionalWithin(s: Option<string>, n: nat)
  {
    s.None? || |s.value| <= n
  }

  /** The constraints `TaskItem.cs` and `OnModelCreating` declare for a
      task row. */
  predicate ValidTaskItem(t: TaskItem)
    ensures ValidTaskItem(t) ==> 0 < |t.title| <= 200 && 0 < |t.createdBy| <= 100
  {
    && HasNonWhiteSpace(t.title) && |t.title| <= 200
    && |t.description| <= 1000
    && HasNonWhiteSpace(t.createdBy) && |t.createdBy| <= 100
    && |t.assignedTo| <= 100
  }

  /** The constraints `User.cs` and `OnModelCreating` declare for a user
      row. */
  predicate ValidUser(u: User)
    ensures ValidUser(u) ==> 0 < |u.email| <= 100 && 0 < |u.name| <= 100 && 0 < |u.provider| <= 50
  {
    && HasNonWhiteSpace(u.email) && |u.email| <= 100
    && HasNonWhiteSpace(u.name) && |u.name| <= 100
    && OptionalWithin(u.firstName, 100)
    && OptionalWithin(u.lastName, 100)
    && OptionalWithin(u.picture, 500)
    && HasNonWhiteSpace(u.provider) && |u.provider| <= 50
    && OptionalWithin(u.providerId, 200)
  }

  // ----- new instances -----

  /** `new TaskItem()` constructed at `utcNow`: empty strings, Pending, no
      due date, no update time, no users, and the creation time taken once,
      here. Its required title and creator are empty, so it is not valid as
      it stands. */
  function NewTaskItem(utcNow: DateTime): (r: TaskItem)
    ensures r.title == "" && r.description == "" && r.createdBy == "" && r.assignedTo == ""
    ensures r.status == Pending && r.dueDate == None && r.updatedAt == None
    ensures r.createdAt == utcNow
    ensures !ValidTaskItem(r)
  {
    TaskItem(0, "", "", None, Pending, "", "", utcNow, None, None, None)
  }

  /** `new User()` constructed at `utcNow`: active, never logged in, no
      tasks, and its required strings empty, so not valid as it stands. */
  function NewUser(utcNow: DateTime): (r: User)
    ensures r.isActive && r.lastLoginAt == None
    ensures r.createdTasks == [] && r.assignedTasks == []
    ensures r.email == "" && r.name == "" && r.provider == ""
    ensures r.firstName == None && r.lastName == None && r.picture == None && r.providerId == None
    ensures r.createdAt == utcNow
    ensures !ValidUser(r)
  {
    User(0, "", "", None, None, None, "", None, utcNow, None, true, [], [])
  }

  /** Setting the required fields to non-blank values within their bounds
      makes a new task valid, whatever the optional fields hold within
      theirs. */
  lemma FilledNewTaskIsValid(utcNow: DateTime, title: string, createdBy: string, description: string, assignedTo: string)
    requires HasNonWhiteSpace(title) && |title| <= 200
    requires HasNonWhiteSpace(createdBy) && |createdBy| <= 100
    requires |description| <= 1000 && |assignedTo| <= 100
    ensures ValidTaskItem(NewTaskItem(utcNow).(title := title, createdBy := createdBy,
                                               description := description, assignedTo := assignedTo))
  {
  }
}
