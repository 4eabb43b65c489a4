/** The start-up seed (api/Program.cs, the block after `EnsureCreated`): five
    sample tasks, inserted only while the Tasks table is empty. */
module Seed {
  import opened Wrappers
  import opened Models
  import opened Store

  /** One entry of `mockTasks`: its texts and status, and its dates as
      whole-day offsets from the clocks (`DateTime.Now.AddDays(dueInDays)`,
      `DateTime.UtcNow.AddDays(createdInDays)`, and the same for
      `UpdatedAt` when the entry sets it). */
  datatype Sample = Sample(title: string, description: string, createdBy: string, assignedTo: string,
                           status: TaskStatus, dueInDays: int, createdInDays: int, updatedInDays: Option<int>)

  /** The five entries, in the order of the list. */
  const Samples: seq<Sample> := [
    Sample("Complete API Documentation",
           "Write comprehensive documentation for the task manager API including all endpoints and examples",
           "John Developer", "Tech Lead", InProgress, 7, -5, None),
    Sample("Design Database Schema",
           "Create and review the database schema for the task management system",
           "Sarah Architect", "Database Team", Done, -2, -10, Some(-2)),
    Sample("Implement User Authentication",
           "Add JWT-based authentication and authorization to the API",
           "Mike Security", "Security Team", Pending, 14, -3, None),
    Sample("Create Frontend Dashboard",
           "Build a React-based dashboard for task management with real-time updates",
           "Lisa Frontend", "UI/UX Team", Pending, 21, -1, None),
    Sample("Setup CI/CD Pipeline",
           "Configure automated testing and deployment pipeline using GitHub Actions",
           "DevOps Team", "DevOps Team", InProgress, 5, -7, Some(-1))
  ]

  /** An entry whose row the database accepts: required texts non-blank,
      every text within its bound, created in the past, and updated, if at
      all, after its creation and in the past. */
  predicate SampleWellFormed(e: Sample)
    ensures SampleWellFormed(e) ==> |e.title| > 0 && |e.createdBy| > 0
  {
    && HasNonWhiteSpace(e.title) && |e.title| <= 200
    && |e.description| <= 1000
    && HasNonWhiteSpace(e.createdBy) && |e.createdBy| <= 100
    && |e.assignedTo| <= 100
    && e.createdInDays < 0
    && (e.updatedInDays.Some? ==> e.createdInDays < e.updatedInDays.value < 0)
  }

  /** A text whose first character is not white space is non-blank. */
  lemma StartsNonBlank(s: string)
    requires |s| > 0 && !IsWhiteSpace(s[0])
    ensures HasNonWhiteSpace(s)
  {
  }

  /** Every entry of the list is well formed. */
  lemma SamplesWellFormed()
    ensures |Samples| == 5
    ensures forall i :: 0 <= i < |Samples| ==> SampleWellFormed(Samples[i])
  {
    forall i | 0 <= i < |Samples| ensures SampleWellFormed(Samples[i]) {
      var e := Samples[i];
      StartsNonBlank(e.title);
      StartsNonBlank(e.createdBy);
    }
  }

  /** What every sample row satisfies: it is valid, references no user, has
      a due date, was created before the seed ran, and, when it has an update
      time, was updated after its creation and before the seed ran. */
  predicate SeedRow(t: TaskItem, utcNow: DateTime)
  {
    && ValidTaskItem(t)
    && t.createdById.None? && t.assignedToId.None?
    && t.dueDate.Some?
    && t.createdAt < utcNow
    && (t.updatedAt.Some? ==> t.createdAt < t.updatedAt.value < utcNow)
  }

  /** `new TaskItem { ... }` for one entry: the constructor's defaults, then
      the initialiser's fields. */
  function SampleTask(e: Sample, utcNow: DateTime, localNow: DateTime): (r: TaskItem)
    requires SampleWellFormed(e)
    ensures SeedRow(r, utcNow)
    ensures r.title == e.title && r.status == e.status
    ensures r.dueDate == Some(AddDays(localNow, e.dueInDays))
    ensures r.updatedAt.Some? <==> e.updatedInDays.Some?
  {
    NewTaskItem(utcNow).(title := e.title, description := e.description, createdBy := e.createdBy,
                         assignedTo := e.assignedTo, status := e.status,
                         dueDate := Some(AddDays(localNow, e.dueInDays)),
                         createdAt := AddDays(utcNow, e.createdInDays),
                         updatedAt := if e.updatedInDays.Some? then Some(AddDays(utcNow, e.updatedInDays.value)) else None)
  }

  /** Some row has the status. */
  predicate HasStatus(rows: seq<TaskItem>, s: TaskStatus)
  {
    exists i :: 0 <= i < |rows| && rows[i].status == s
  }

  /** The number of rows with an update time. */
  function UpdatedCount(rows: seq<TaskItem>): (r: nat)
    ensures r <= |rows|
    ensures r == 0 <==> forall i :: 0 <= i < |rows| ==> rows[i].updatedAt.None?
  {
    if rows == [] then 0
    else
      assert forall i :: 1 <= i < |rows| ==> rows[i] == rows[1..][i - 1];
      (if rows[0].updatedAt.Some? then 1 else 0) + UpdatedCount(rows[1..])
  }

  /** `mockTasks`: one row per entry, in order. Due dates are taken from the
      local clock (`DateTime.Now`), creation and update times from the UTC
      clock. */
  function SeedTasks(utcNow: DateTime, localNow: DateTime): (r: seq<TaskItem>)
    ensures |r| == 5
    ensures forall i :: 0 <= i < |r| ==> SeedRow(r[i], utcNow)
    ensures forall i :: 0 <= i < |r| ==>
              && r[i].title == Samples[i].title && r[i].status == Samples[i].status
              && r[i].dueDate == Some(AddDays(localNow, Samples[i].dueInDays))
              && (r[i].updatedAt.Some? <==> Samples[i].updatedInDays.Some?)
  {
    SamplesWellFormed();
    seq(|Samples|, i requires 0 <= i < |Samples| => SampleTask(Samples[i], utcNow, localNow))
  }

  /** The sample rows cover all three statuses. */
  lemma SeedCoversEveryStatus(utcNow: DateTime, localNow: DateTime)
    ensures var r := SeedTasks(utcNow, localNow);
            HasStatus(r, Pending) && HasStatus(r, InProgress) && HasStatus(r, Done)
  {
    var r := SeedTasks(utcNow, localNow);
    assert r[2].status == Samples[2].status == Pending;
    assert r[0].status == Samples[0].status == InProgress;
    assert r[1].status == Samples[1].status == Done;
  }

  /** Exactly two sample rows, the second and the fifth, carry an update
      time. */
  lemma SeedHasTwoUpdatedRows(utcNow: DateTime, localNow: DateTime)
    ensures var r := SeedTasks(utcNow, localNow);
            UpdatedCount(r) == 2 && r[1].updatedAt.Some? && r[4].updatedAt.Some?
  {
    var r := SeedTasks(utcNow, localNow);
    assert Samples[0].updatedInDays.None? && Samples[1].updatedInDays.Some? && Samples[2].updatedInDays.None?;
    assert Samples[3].updatedInDays.None? && Samples[4].updatedInDays.Some?;
    assert r[0].updatedAt.None? && r[1].updatedAt.Some? && r[2].updatedAt.None?;
    assert r[3].updatedAt.None? && r[4].updatedAt.Some?;
    var r1, r2, r3, r4 := r[1..], r[2..], r[3..], r[4..];
    assert r1[1..] == r2 && r2[1..] == r3 && r3[1..] == r4 && r4[1..] == [];
    assert UpdatedCount(r4) == 1;
    assert UpdatedCount(r3) == 1;
    assert UpdatedCount(r2) == 1;
    assert UpdatedCount(r1) == 2;
  }

  /** `if (!context.Tasks.Any()) { AddRange(mockTasks); SaveChanges(); }`:
      on an empty Tasks table the five rows are saved with fresh keys; on any
      other store nothing changes. */
  method SeedIfEmpty(db: TaskManagerContext, utcNow: DateTime, localNow: DateTime) returns (seeded: bool)
    requires db.Valid()
    modifies db
    ensures db.Valid() && db.users == old(db.users) && db.nextUserId == old(db.nextUserId)
    ensures seeded <==> old(db.tasks) == []
    ensures seeded ==> db.tasks == WithIds(SeedTasks(utcNow, localNow), old(db.nextTaskId))
                       && db.nextTaskId == old(db.nextTaskId) + 5
    ensures !seeded ==> db.tasks == old(db.tasks) && db.nextTaskId == old(db.nextTaskId)
    ensures |db.tasks| > 0
  {
    if db.HasTasks() {
      return false;
    }
    var rows := SeedTasks(utcNow, localNow);
    var outcome := db.AddTasks(rows);
    assert outcome == Saved;
    assert db.tasks == WithIds(rows, old(db.nextTaskId));
    seeded := true;
  }

  /** Starting the API twice: the second start finds the seeded rows and
      leaves the store, tables and key generators alike, as the first start
      left it. */
  method StartTwice(db: TaskManagerContext, utcNow1: DateTime, localNow1: DateTime,
                    utcNow2: DateTime, localNow2: DateTime) returns (seeded1: bool, seeded2: bool)
    requires db.Valid()
    modifies db
    ensures db.Valid() && db.users == old(db.users) && db.nextUserId == old(db.nextUserId)
    ensures seeded1 <==> old(db.tasks) == []
    ensures !seeded2
    ensures db.tasks == if old(db.tasks) == [] then WithIds(SeedTasks(utcNow1, localNow1), old(db.nextTaskId))
                        else old(db.tasks)
    ensures db.nextTaskId == if old(db.tasks) == [] then old(db.nextTaskId) + 5 else old(db.nextTaskId)
  {
    seeded1 := SeedIfEmpty(db, utcNow1, localNow1);
    ghost var afterFirst, keyAfterFirst := db.tasks, db.nextTaskId;
    assert afterFirst != [];
    seeded2 := SeedIfEmpty(db, utcNow2, localNow2);
    assert !seeded2;
    assert db.tasks == afterFirst && db.nextTaskId == keyAfterFirst;
  }
}
