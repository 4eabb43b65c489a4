/** The database behind `TaskManagerContext` (api/Data/TaskManagerContext.cs):
    the Tasks and Users tables, and the constraints `OnModelCreating`
    declares on them, kept as the invariant of every saved state. */
module Store {
  import opened Wrappers
  import opened Models

  datatype StoreError = ValidationError | ConflictError | ReferentialIntegrityError | NotFoundError

  /** How a `SaveChanges` ended. */
  datatype Outcome = Saved | Rejected(error: StoreError)

  /** Two users collide on one of the unique indexes: the same Email, or the
      same Provider with the same ProviderId. An absent ProviderId is NULL,
      which a unique index never treats as equal to another NULL. */
  predicate Collide(a: User, b: User)
    ensures a.email == b.email ==> Collide(a, b)
    ensures a.email != b.email && a.providerId.None? ==> !Collide(a, b)
  {
    a.email == b.email || (a.provider == b.provider && a.providerId.Some? && a.providerId == b.providerId)
  }

  /** No two users collide on a unique index. */
  ghost predicate UniqueUsers(users: map<int, User>)
    ensures UniqueUsers(users) <==> forall k :: k in users ==> !ConflictsWith(users - {k}, users[k])
  {
    PairwiseIffNoConflicts(users);
    forall i, j :: i in users && j in users && i != j ==> !Collide(users[i], users[j])
  }

  /** No two stored users collide iff none collides with the others. */
  lemma PairwiseIffNoConflicts(users: map<int, User>)
    ensures (forall i, j :: i in users && j in users && i != j ==> !Collide(users[i], users[j]))
            <==> forall k :: k in users ==> !ConflictsWith(users - {k}, users[k])
  {
    forall i, j | i in users && j in users && i != j
      ensures Collide(users[i], users[j]) ==> ConflictsWith(users - {j}, users[j])
    {
      assert i in users - {j} && (users - {j})[i] == users[i];
    }
  }

  /** The user a new row would collide with, if any. */
  predicate ConflictsWith(users: map<int, User>, u: User)
  {
    exists k :: k in users && Collide(users[k], u)
  }

  /** Collision is symmetric, so a check of the new row against each stored
      one covers both orders. */
  lemma CollideSymmetric(a: User, b: User)
    ensures Collide(a, b) <==> Collide(b, a)
  {
  }

  /** Inserting a user that collides with no stored one, under a fresh key,
      keeps both unique indexes satisfied. */
  lemma InsertKeepsUsersUnique(users: map<int, User>, u: User, id: int)
    requires UniqueUsers(users) && !ConflictsWith(users, u) && id !in users
    ensures UniqueUsers(users[id := u])
  {
    var after := users[id := u];
    forall i, j | i in after && j in after && i != j
      ensures !Collide(after[i], after[j])
    {
      if i == id {
        CollideSymmetric(users[j], u);
      }
    }
  }

  /** An optional foreign key is NULL or names a stored user. */
  predicate Resolves(key: Option<int>, users: map<int, User>)
  {
    key.None? || key.value in users
  }

  ghost predicate ReferencesResolve(tasks: seq<TaskItem>, users: map<int, User>)
  {
    forall i :: 0 <= i < |tasks| ==> Resolves(tasks[i].createdById, users) && Resolves(tasks[i].assignedToId, users)
  }

  /** Some task names the user as its creator or assignee. */
  function Referencing(tasks: seq<TaskItem>, userId: int): (r: bool)
    ensures r <==> exists i :: 0 <= i < |tasks| && (tasks[i].createdById == Some(userId) || tasks[i].assignedToId == Some(userId))
  {
    if tasks == [] then false
    else if tasks[0].createdById == Some(userId) || tasks[0].assignedToId == Some(userId) then true
    else
      var r := Referencing(tasks[1..], userId);
      assert forall i :: 1 <= i < |tasks| ==> tasks[i] == tasks[1..][i - 1];
      r
  }

  /** Removing a user no task references leaves every reference resolved:
      a task never points at a deleted user. */
  lemma RemovingUnreferencedUserKeepsReferences(tasks: seq<TaskItem>, users: map<int, User>, id: int)
    requires ReferencesResolve(tasks, users) && !Referencing(tasks, id)
    ensures ReferencesResolve(tasks, users - {id})
  {
  }

  /** The rows of `batch` with the keys the database generates, counting
      up from `first`. */
  function WithIds(batch: seq<TaskItem>, first: int): (r: seq<TaskItem>)
    ensures |r| == |batch|
    ensures forall i :: 0 <= i < |batch| ==> r[i] == batch[i].(id := first + i)
  {
    seq(|batch|, i requires 0 <= i < |batch| => batch[i].(id := first + i))
  }

  /** Every row of the batch meets the declared constraints. */
  predicate AllValid(batch: seq<TaskItem>)
  {
    forall i :: 0 <= i < |batch| ==> ValidTaskItem(batch[i])
  }

  /** Every foreign key of the batch names a stored user. */
  predicate AllResolve(batch: seq<TaskItem>, users: map<int, User>)
  {
    forall i :: 0 <= i < |batch| ==> Resolves(batch[i].createdById, users) && Resolves(batch[i].assignedToId, users)
  }

  /** The two tables and the key generators. */
  class TaskManagerContext {
    var tasks: seq<TaskItem>
    var users: map<int, User>
    var nextTaskId: int
    var nextUserId: int

    /** What every saved state satisfies: each row meets its constraints,
        keys are distinct and below the generators, the user indexes are
        unique, and every foreign key resolves. */
    ghost predicate Valid()
      reads this
    {
      && 1 <= nextTaskId && 1 <= nextUserId
      && (forall i :: 0 <= i < |tasks| ==> ValidTaskItem(tasks[i]) && 1 <= tasks[i].id < nextTaskId)
      && (forall i, j :: 0 <= i < j < |tasks| ==> tasks[i].id != tasks[j].id)
      && (forall k :: k in users ==> ValidUser(users[k]) && users[k].id == k && 1 <= k < nextUserId)
      && UniqueUsers(users)
      && ReferencesResolve(tasks, users)
    }

    /** `EnsureCreated` on a new database: both tables empty. */
    constructor()
      ensures Valid() && tasks == [] && users == map[]
    {
      tasks := [];
      users := map[];
      nextTaskId := 1;
      nextUserId := 1;
    }

    /** `Tasks.Any()`. */
    predicate HasTasks()
      reads this
      ensures Valid() && HasTasks() ==> nextTaskId > 1
    {
      assert Valid() && |tasks| > 0 ==> 1 <= tasks[0].id < nextTaskId;
      |tasks| > 0
    }

    /** `Tasks.AddRange(batch)` then `SaveChanges()`: all rows are inserted
        with fresh keys, or, when one breaks a constraint, none is. */
    method AddTasks(batch: seq<TaskItem>) returns (outcome: Outcome)
      requires Valid()
      modifies this
      ensures Valid() && users == old(users) && nextUserId == old(nextUserId)
      ensures outcome == Saved <==> AllValid(batch) && AllResolve(batch, old(users))
      ensures outcome == Saved ==>
        tasks == old(tasks) + WithIds(batch, old(nextTaskId)) && nextTaskId == old(nextTaskId) + |batch|
      ensures outcome != Saved ==> tasks == old(tasks) && nextTaskId == old(nextTaskId)
      ensures !AllValid(batch) ==> outcome == Rejected(ValidationError)
      ensures AllValid(batch) && !AllResolve(batch, old(users)) ==> outcome == Rejected(ReferentialIntegrityError)
    {
      if !AllValid(batch) {
        return Rejected(ValidationError);
      }
      if !AllResolve(batch, users) {
        return Rejected(ReferentialIntegrityError);
      }
      var added := WithIds(batch, nextTaskId);
      assert forall i :: 0 <= i < |added| ==> ValidTaskItem(added[i]) && added[i].id == nextTaskId + i;
      assert forall i :: 0 <= i < |added| ==> added[i].createdById == batch[i].createdById && added[i].assignedToId == batch[i].assignedToId;
      tasks := tasks + added;
      nextTaskId := nextTaskId + |batch|;
      outcome := Saved;
    }

    /** `Users.Add(u)` then `SaveChanges()`: rejected when the row breaks a
        constraint or collides with a stored user on a unique index. */
    method AddUser(u: User) returns (outcome: Outcome)
      requires Valid()
      modifies this
      ensures Valid() && tasks == old(tasks) && nextTaskId == old(nextTaskId)
      ensures !ValidUser(u) ==> outcome == Rejected(ValidationError)
      ensures ValidUser(u) && ConflictsWith(old(users), u) ==> outcome == Rejected(ConflictError)
      ensures outcome == Saved <==> ValidUser(u) && !ConflictsWith(old(users), u)
      ensures outcome == Saved ==>
        users == old(users)[old(nextUserId) := u.(id := old(nextUserId))] && nextUserId == old(nextUserId) + 1
      ensures outcome != Saved ==> users == old(users) && nextUserId == old(nextUserId)
    {
      if !ValidUser(u) {
        return Rejected(ValidationError);
      }
      if ConflictsWith(users, u) {
        return Rejected(ConflictError);
      }
      var stored := u.(id := nextUserId);
      assert ValidUser(stored);
      assert !ConflictsWith(users, stored) by {
        forall k | k in users ensures !Collide(users[k], stored) {
          assert !Collide(users[k], u);
        }
      }
      InsertKeepsUsersUnique(users, stored, nextUserId);
      users := users[nextUserId := stored];
      nextUserId := nextUserId + 1;
      outcome := Saved;
    }

    /** `Users.Remove(user)` then `SaveChanges()`: an unknown key is not
        found, and `DeleteBehavior.Restrict` rejects the delete while a task
        references the user; a rejected delete changes neither table. */
    method DeleteUser(id: int) returns (outcome: Outcome)
      requires Valid()
      modifies this
      ensures Valid() && tasks == old(tasks) && nextTaskId == old(nextTaskId) && nextUserId == old(nextUserId)
      ensures id !in old(users) ==> outcome == Rejected(NotFoundError)
      ensures id in old(users) && Referencing(old(tasks), id) ==> outcome == Rejected(ReferentialIntegrityError)
      ensures outcome == Saved <==> id in old(users) && !Referencing(old(tasks), id)
      ensures outcome == Saved ==> users == old(users) - {id}
      ensures outcome != Saved ==> users == old(users)
    {
      if id !in users {
        return Rejected(NotFoundError);
      }
      if Referencing(tasks, id) {
        return Rejected(ReferentialIntegrityError);
      }
      RemovingUnreferencedUserKeepsReferences(tasks, users, id);
      users := users - {id};
      outcome := Saved;
    }
  }
}
