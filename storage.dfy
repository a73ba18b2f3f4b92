/** The in-memory entity store: six tables keyed by id and one id counter
    shared by all of them. */
module Storage {
  import opened Wrappers
  import opened Schema
  import opened Collections

  // ---------------------------------------------------------------------------
  // Record transformations used by the store
  // ---------------------------------------------------------------------------

  /** `{ ...user, ...updateData }`: supplied fields overwrite, omitted fields stay. */
  function MergeUser(u: User, p: UserPatch): (r: User)
    ensures r.id == u.id && r.createdAt == u.createdAt
    ensures p.username.Some? ==> r.username == p.username.value
    ensures p.username.None? ==> r.username == u.username
    ensures p.password.Some? ==> r.password == p.password.value
    ensures p.password.None? ==> r.password == u.password
    ensures p.email.Some? ==> r.email == p.email.value
    ensures p.email.None? ==> r.email == u.email
    ensures p.role.Some? ==> r.role == p.role.value
    ensures p.role.None? ==> r.role == u.role
  {
    u.(username := Pick(p.username, u.username),
       password := Pick(p.password, u.password),
       email := Pick(p.email, u.email),
       role := Pick(p.role, u.role))
  }

  /** `{ ...task, ...updateData }`: a patch never touches the completion stamp. */
  function MergeTask(t: Task, p: TaskPatch): (r: Task)
    ensures r.id == t.id && r.createdAt == t.createdAt
    ensures r.completed == t.completed && r.completedBy == t.completedBy && r.completedAt == t.completedAt
    ensures p.title.Some? ==> r.title == p.title.value
    ensures p.title.None? ==> r.title == t.title
    ensures p.description.Some? ==> r.description == p.description.value
    ensures p.description.None? ==> r.description == t.description
    ensures p.imageUrl.Some? ==> r.imageUrl == p.imageUrl.value
    ensures p.imageUrl.None? ==> r.imageUrl == t.imageUrl
  {
    t.(title := Pick(p.title, t.title),
       description := Pick(p.description, t.description),
       imageUrl := Pick(p.imageUrl, t.imageUrl))
  }

  /** `{ ...message, ...updateData }`. */
  function MergeMessage(m: ImportantMessage, p: MessagePatch): (r: ImportantMessage)
    ensures r.id == m.id && r.createdAt == m.createdAt
    ensures p.title.Some? ==> r.title == p.title.value
    ensures p.title.None? ==> r.title == m.title
    ensures p.content.Some? ==> r.content == p.content.value
    ensures p.content.None? ==> r.content == m.content
    ensures p.active.Some? ==> r.active == p.active.value
    ensures p.active.None? ==> r.active == m.active
  {
    m.(title := Pick(p.title, m.title),
       content := Pick(p.content, m.content),
       active := Pick(p.active, m.active))
  }

  /** The task as `completeTask` stores it: completed, by `userId`, at `now`;
      every other field as it was. */
  function Completed(t: Task, userId: int, now: int): (r: Task)
    ensures r.completed && r.completedBy == Some(userId) && r.completedAt == Some(now)
    ensures r.(completed := t.completed, completedBy := t.completedBy, completedAt := t.completedAt) == t
  {
    t.(completed := true, completedBy := Some(userId), completedAt := Some(now))
  }

  /** Completing twice is not idempotent: the second call replaces the first
      call's stamp, whoever made it. */
  lemma CompleteOverwrites(t: Task, first: int, second: int, t1: int, t2: int)
    ensures Completed(Completed(t, first, t1), second, t2) == Completed(t, second, t2)
    ensures first != second ==> Completed(Completed(t, first, t1), second, t2).completedBy != Completed(t, first, t1).completedBy
  {
  }

  /** The note as `resolveEmployeeNote` stores it: resolved at `now`; every
      other field as it was. */
  function Resolved(n: EmployeeNote, now: int): (r: EmployeeNote)
    ensures r.resolved && r.resolvedAt == Some(now)
    ensures r.(resolved := n.resolved, resolvedAt := n.resolvedAt) == n
  {
    n.(resolved := true, resolvedAt := Some(now))
  }

  // ---------------------------------------------------------------------------
  // The store's state as a value, and its invariant
  // ---------------------------------------------------------------------------

  datatype Tables = Tables(
    users: map<int, User>,
    tasks: map<int, Task>,
    taskNotes: map<int, TaskNote>,
    importantMessages: map<int, ImportantMessage>,
    messageAcknowledgements: map<int, MessageAcknowledgement>,
    employeeNotes: map<int, EmployeeNote>,
    currentId: nat)

  /** Every id in use, in any table. */
  function Ids(t: Tables): set<int> {
    t.users.Keys + t.tasks.Keys + t.taskNotes.Keys + t.importantMessages.Keys
      + t.messageAcknowledgements.Keys + t.employeeNotes.Keys
  }

  /** No id is used by two tables. */
  ghost predicate Disjoint(t: Tables) {
    && t.users.Keys !! t.tasks.Keys
    && t.users.Keys !! t.taskNotes.Keys
    && t.users.Keys !! t.importantMessages.Keys
    && t.users.Keys !! t.messageAcknowledgements.Keys
    && t.users.Keys !! t.employeeNotes.Keys
    && t.tasks.Keys !! t.taskNotes.Keys
    && t.tasks.Keys !! t.importantMessages.Keys
    && t.tasks.Keys !! t.messageAcknowledgements.Keys
    && t.tasks.Keys !! t.employeeNotes.Keys
    && t.taskNotes.Keys !! t.importantMessages.Keys
    && t.taskNotes.Keys !! t.messageAcknowledgements.Keys
    && t.taskNotes.Keys !! t.employeeNotes.Keys
    && t.importantMessages.Keys !! t.messageAcknowledgements.Keys
    && t.importantMessages.Keys !! t.employeeNotes.Keys
    && t.messageAcknowledgements.Keys !! t.employeeNotes.Keys
  }

  /** The store's invariant: every record sits under its own id, every id was
      drawn from the counter (so lies in [1, currentId)), and no id is shared. */
  ghost predicate Consistent(t: Tables) {
    && 1 <= t.currentId
    && (forall k :: k in t.users ==> 1 <= k < t.currentId && t.users[k].id == k)
    && (forall k :: k in t.tasks ==> 1 <= k < t.currentId && t.tasks[k].id == k)
    && (forall k :: k in t.taskNotes ==> 1 <= k < t.currentId && t.taskNotes[k].id == k)
    && (forall k :: k in t.importantMessages ==> 1 <= k < t.currentId && t.importantMessages[k].id == k)
    && (forall k :: k in t.messageAcknowledgements ==> 1 <= k < t.currentId && t.messageAcknowledgements[k].id == k)
    && (forall k :: k in t.employeeNotes ==> 1 <= k < t.currentId && t.employeeNotes[k].id == k)
    && Disjoint(t)
  }

  /** The id the counter hands out next is in use nowhere. */
  lemma FreshId(t: Tables)
    requires Consistent(t)
    ensures t.currentId !in Ids(t)
    ensures forall k :: k in Ids(t) ==> k < t.currentId
  {
  }

  /** Storing a record under the counter's id and bumping the counter keeps
      the invariant, whichever table receives the record. */
  lemma InsertUserConsistent(t: Tables, u: User)
    requires Consistent(t) && u.id == t.currentId
    ensures Consistent(t.(users := t.users[u.id := u], currentId := t.currentId + 1))
  {
  }

  lemma InsertTaskConsistent(t: Tables, x: Task)
    requires Consistent(t) && x.id == t.currentId
    ensures Consistent(t.(tasks := t.tasks[x.id := x], currentId := t.currentId + 1))
  {
  }

  lemma InsertTaskNoteConsistent(t: Tables, x: TaskNote)
    requires Consistent(t) && x.id == t.currentId
    ensures Consistent(t.(taskNotes := t.taskNotes[x.id := x], currentId := t.currentId + 1))
  {
  }

  lemma InsertMessageConsistent(t: Tables, x: ImportantMessage)
    requires Consistent(t) && x.id == t.currentId
    ensures Consistent(t.(importantMessages := t.importantMessages[x.id := x], currentId := t.currentId + 1))
  {
  }

  lemma InsertAcknowledgementConsistent(t: Tables, x: MessageAcknowledgement)
    requires Consistent(t) && x.id == t.currentId
    ensures Consistent(t.(messageAcknowledgements := t.messageAcknowledgements[x.id := x], currentId := t.currentId + 1))
  {
  }

  lemma InsertEmployeeNoteConsistent(t: Tables, x: EmployeeNote)
    requires Consistent(t) && x.id == t.currentId
    ensures Consistent(t.(employeeNotes := t.employeeNotes[x.id := x], currentId := t.currentId + 1))
  {
  }

  // Seed strings, named so that the seed tables stay cheap to reason about.
  const AdminName: string := "admin"
  const AdminPassword: string := "Thecure93"
  const AdminEmail: string := "admin@company.com"
  const AdminRole: string := "admin"
  const EmployeeName: string := "employee"
  const EmployeePassword: string := "password123"
  const EmployeeEmail: string := "employee@company.com"
  const EmployeeRole: string := "employee"
  const ReceptionTitle: string := "Clean reception area and lobby"
  const ReceptionDescription: string := "Clean and organize the reception area and main lobby"
  const CoffeeTitle: string := "Stock coffee supplies"
  const CoffeeDescription: string := "Restock coffee, tea, and related supplies in the kitchen"
  const InventoryTitle: string := "Update inventory spreadsheet"
  const InventoryDescription: string := "Update the daily inventory tracking spreadsheet"
  const ReminderTitle: string := "Shift Completion Reminder"
  const ReminderContent: string := "Remember to complete all tasks before end of shift!"

  /** Any tables holding users 1 and 2, tasks 3 to 5 and message 6 under their
      own ids, with the counter at 7, satisfy the invariant. */
  lemma SeedShapeConsistent(t: Tables)
    requires t.currentId == 7
    requires t.users.Keys == {1, 2} && t.users[1].id == 1 && t.users[2].id == 2
    requires t.tasks.Keys == {3, 4, 5} && t.tasks[3].id == 3 && t.tasks[4].id == 4 && t.tasks[5].id == 5
    requires t.importantMessages.Keys == {6} && t.importantMessages[6].id == 6
    requires t.taskNotes == map[] && t.messageAcknowledgements == map[] && t.employeeNotes == map[]
    ensures Consistent(t) && Ids(t) == {1, 2, 3, 4, 5, 6}
  {
  }

  /** The state the constructor leaves: the six seed records, created in
      order by `createUser`, `createTask` and `createImportantMessage` from an
      empty store whose counter starts at 1, so each takes the counter's next
      value as its id: users 1 and 2, tasks 3 to 5, message 6, counter 7. */
  function SeedTables(now: int): (t: Tables)
    ensures Consistent(t)
    ensures t.currentId == 7 && Ids(t) == {1, 2, 3, 4, 5, 6}
    ensures t.users.Keys == {1, 2} && t.users[1].role == Some(AdminRole) && t.users[2].role == Some(EmployeeRole)
    ensures t.tasks.Keys == {3, 4, 5} && forall k :: k in t.tasks ==> !t.tasks[k].completed
    ensures t.importantMessages.Keys == {6} && IsActive(t.importantMessages[6])
    ensures t.taskNotes == map[] && t.messageAcknowledgements == map[] && t.employeeNotes == map[]
  {
    var users := map[
      1 := User(1, AdminName, AdminPassword, Some(AdminEmail), Some(AdminRole), now),
      2 := User(2, EmployeeName, EmployeePassword, Some(EmployeeEmail), Some(EmployeeRole), now)];
    var tasks := map[
      3 := Task(3, ReceptionTitle, Some(ReceptionDescription), None, false, None, None, now),
      4 := Task(4, CoffeeTitle, Some(CoffeeDescription), None, false, None, None, now),
      5 := Task(5, InventoryTitle, Some(InventoryDescription), None, false, None, None, now)];
    var messages := map[6 := ImportantMessage(6, ReminderTitle, ReminderContent, Some(true), now)];
    assert users.Keys == {1, 2} && tasks.Keys == {3, 4, 5} && messages.Keys == {6};
    var t := Tables(users, tasks, map[], messages, map[], map[], 7);
    SeedShapeConsistent(t);
    t
  }

  /** Replacing a stored user by a record with the same id keeps the invariant. */
  lemma ReplaceUserConsistent(t: Tables, u: User)
    requires Consistent(t) && u.id in t.users
    ensures Consistent(t.(users := t.users[u.id := u]))
  {
    assert t.users[u.id := u].Keys == t.users.Keys;
  }

  /** Replacing a stored task by one with the same id keeps the invariant. */
  lemma ReplaceTaskConsistent(t: Tables, x: Task)
    requires Consistent(t) && x.id in t.tasks
    ensures Consistent(t.(tasks := t.tasks[x.id := x]))
  {
    assert t.tasks[x.id := x].Keys == t.tasks.Keys;
  }

  /** Removing a task keeps the invariant. */
  lemma RemoveTaskConsistent(t: Tables, id: int)
    requires Consistent(t)
    ensures Consistent(t.(tasks := t.tasks - {id}))
  {
  }

  /** Replacing a stored message by one with the same id keeps the invariant. */
  lemma ReplaceMessageConsistent(t: Tables, x: ImportantMessage)
    requires Consistent(t) && x.id in t.importantMessages
    ensures Consistent(t.(importantMessages := t.importantMessages[x.id := x]))
  {
    assert t.importantMessages[x.id := x].Keys == t.importantMessages.Keys;
  }

  /** Removing a message keeps the invariant. */
  lemma RemoveMessageConsistent(t: Tables, id: int)
    requires Consistent(t)
    ensures Consistent(t.(importantMessages := t.importantMessages - {id}))
  {
  }

  /** Replacing a stored employee note by one with the same id keeps the invariant. */
  lemma ReplaceEmployeeNoteConsistent(t: Tables, x: EmployeeNote)
    requires Consistent(t) && x.id in t.employeeNotes
    ensures Consistent(t.(employeeNotes := t.employeeNotes[x.id := x]))
  {
    assert t.employeeNotes[x.id := x].Keys == t.employeeNotes.Keys;
  }

  /** Removing a user keeps the invariant; nothing filed under other ids is touched. */
  lemma RemoveUserConsistent(t: Tables, id: int)
    requires Consistent(t)
    ensures Consistent(t.(users := t.users - {id}))
  {
  }

  /** A typed user patch cannot reach `id`, so updating a stored user keeps
      every record filed under its own id. */
  lemma MergeUserKeepsConsistent(t: Tables, id: int, p: UserPatch)
    requires Consistent(t) && id in t.users
    ensures MergeUser(t.users[id], p).id == id
    ensures Consistent(t.(users := t.users[id := MergeUser(t.users[id], p)]))
  {
    ReplaceUserConsistent(t, MergeUser(t.users[id], p));
  }

  // ---------------------------------------------------------------------------
  // MemStorage
  // ---------------------------------------------------------------------------

  class MemStorage {
    var users: map<int, User>
    var tasks: map<int, Task>
    var taskNotes: map<int, TaskNote>
    var importantMessages: map<int, ImportantMessage>
    var messageAcknowledgements: map<int, MessageAcknowledgement>
    var employeeNotes: map<int, EmployeeNote>
    var currentId: nat

    function Snapshot(): Tables
      reads this
    {
      Tables(users, tasks, taskNotes, importantMessages, messageAcknowledgements, employeeNotes, currentId)
    }

    ghost predicate Valid()
      reads this
    {
      Consistent(Snapshot())
    }

    /** Empty tables, the counter at 1, then the seed records: an admin, an
        employee, three tasks and one active message, with ids 1 to 6. */
    constructor (now: int)
      ensures Valid()
      ensures Snapshot() == SeedTables(now)
    {
      users := map[];
      tasks := map[];
      taskNotes := map[];
      importantMessages := map[];
      messageAcknowledgements := map[];
      employeeNotes := map[];
      currentId := 1;
      new;
      assert Snapshot() == Tables(map[], map[], map[], map[], map[], map[], 1);
      var admin := CreateUser(NewUser(AdminName, AdminPassword, Some(AdminEmail), Some(AdminRole)), now);
      var employee := CreateUser(NewUser(EmployeeName, EmployeePassword, Some(EmployeeEmail), Some(EmployeeRole)), now);
      var reception := CreateTask(NewTask(ReceptionTitle, Some(ReceptionDescription), None), now);
      var coffee := CreateTask(NewTask(CoffeeTitle, Some(CoffeeDescription), None), now);
      var inventory := CreateTask(NewTask(InventoryTitle, Some(InventoryDescription), None), now);
      var reminder := CreateImportantMessage(NewMessage(ReminderTitle, ReminderContent, Some(true)), now);
      assert users == map[1 := admin, 2 := employee];
      assert tasks == map[3 := reception, 4 := coffee, 5 := inventory];
      assert importantMessages == map[6 := reminder];
    }

    // ----- users -------------------------------------------------------------

    function GetUser(id: int): (r: Option<User>)
      reads this
      ensures r.Some? <==> id in users
      ensures r.Some? ==> r.value == users[id]
      ensures Valid() && r.Some? ==> r.value.id == id
    {
      if id in users then Some(users[id]) else None
    }

    /** `Array.from(users.values())`: every user once, oldest first. */
    function AllUsers(): (r: seq<User>)
      reads this
      ensures forall u :: u in r <==> u in users.Values
      ensures Valid() ==> forall i, j :: 0 <= i < j < |r| ==> r[i].id < r[j].id
    {
      ValuesMembership(users);
      SortedKeysIncreasing(users.Keys);
      Values(users)
    }

    /** The first user, oldest first, whose username is exactly `username`;
        usernames are not required to be unique. */
    function GetUserByUsername(username: string): (r: Option<User>)
      reads this
      ensures r.None? <==> forall u :: u in users.Values ==> u.username != username
      ensures r.Some? ==> exists i :: FirstNamed(AllUsers(), username, i) && r.value == AllUsers()[i]
    {
      var all := AllUsers();
      var p := (u: User) => u.username == username;
      var r := Find(all, p);
      assert r.Some? ==> exists i :: IsFirst(all, p, i) && all[i] == r.value;
      r
    }

    method CreateUser(input: NewUser, now: int) returns (user: User)
      requires Valid()
      modifies this
      ensures Valid()
      ensures user == User(old(currentId), input.username, input.password, input.email, input.role, now)
      ensures user.id !in Ids(old(Snapshot()))
      ensures Snapshot() == old(Snapshot()).(users := old(users)[user.id := user], currentId := old(currentId) + 1)
      ensures AllUsers() == old(AllUsers()) + [user]
    {
      ghost var before := Snapshot();
      FreshId(before);
      var id := currentId;
      currentId := currentId + 1;
      user := User(id, input.username, input.password, input.email, input.role, now);
      users := users[id := user];
      InsertUserConsistent(before, user);
      assert Snapshot() == before.(users := before.users[id := user], currentId := before.currentId + 1);
      ValuesAppend(before.users, id, user);
      assert AllUsers() == Values(users);
    }

    method UpdateUser(id: int, patch: UserPatch) returns (r: Option<User>)
      requires Valid()
      modifies this
      ensures Valid()
      ensures r.None? <==> id !in old(users)
      ensures r.None? ==> Snapshot() == old(Snapshot())
      ensures r.Some? ==> r.value == MergeUser(old(users)[id], patch)
      ensures r.Some? ==> Snapshot() == old(Snapshot()).(users := old(users)[id := r.value])
    {
      if id !in users {
        return None;
      }
      var updated := MergeUser(users[id], patch);
      users := users[id := updated];
      r := Some(updated);
    }

    method DeleteUser(id: int) returns (deleted: bool)
      requires Valid()
      modifies this
      ensures Valid()
      ensures deleted <==> id in old(users)
      ensures Snapshot() == old(Snapshot()).(users := old(users) - {id})
    {
      deleted := id in users;
      users := users - {id};
    }

    // ----- tasks -------------------------------------------------------------

    function GetTask(id: int): (r: Option<Task>)
      reads this
      ensures r.Some? <==> id in tasks
      ensures r.Some? ==> r.value == tasks[id]
      ensures Valid() && r.Some? ==> r.value.id == id
    {
      if id in tasks then Some(tasks[id]) else None
    }

    function AllTasks(): (r: seq<Task>)
      reads this
      ensures forall t :: t in r <==> t in tasks.Values
      ensures Valid() ==> forall i, j :: 0 <= i < j < |r| ==> r[i].id < r[j].id
    {
      ValuesMembership(tasks);
      SortedKeysIncreasing(tasks.Keys);
      Values(tasks)
    }

    method CreateTask(input: NewTask, now: int) returns (task: Task)
      requires Valid()
      modifies this
      ensures Valid()
      ensures task == Task(old(currentId), input.title, input.description, input.imageUrl, false, None, None, now)
      ensures task.id !in Ids(old(Snapshot()))
      ensures Snapshot() == old(Snapshot()).(tasks := old(tasks)[task.id := task], currentId := old(currentId) + 1)
      ensures AllTasks() == old(AllTasks()) + [task]
    {
      ghost var before := Snapshot();
      FreshId(before);
      var id := currentId;
      currentId := currentId + 1;
      task := Task(id, input.title, input.description, input.imageUrl, false, None, None, now);
      tasks := tasks[id := task];
      InsertTaskConsistent(before, task);
      assert Snapshot() == before.(tasks := before.tasks[id := task], currentId := before.currentId + 1);
      ValuesAppend(before.tasks, id, task);
      assert AllTasks() == Values(tasks);
    }

    method UpdateTask(id: int, patch: TaskPatch) returns (r: Option<Task>)
      requires Valid()
      modifies this
      ensures Valid()
      ensures r.None? <==> id !in old(tasks)
      ensures r.None? ==> Snapshot() == old(Snapshot())
      ensures r.Some? ==> r.value == MergeTask(old(tasks)[id], patch)
      ensures r.Some? ==> Snapshot() == old(Snapshot()).(tasks := old(tasks)[id := r.value])
    {
      if id !in tasks {
        return None;
      }
      var updated := MergeTask(tasks[id], patch);
      tasks := tasks[id := updated];
      r := Some(updated);
    }

    method DeleteTask(id: int) returns (deleted: bool)
      requires Valid()
      modifies this
      ensures Valid()
      ensures deleted <==> id in old(tasks)
      ensures Snapshot() == old(Snapshot()).(tasks := old(tasks) - {id})
    {
      deleted := id in tasks;
      tasks := tasks - {id};
    }

    method CompleteTask(id: int, userId: int, now: int) returns (r: Option<Task>)
      requires Valid()
      modifies this
      ensures Valid()
      ensures r.None? <==> id !in old(tasks)
      ensures r.None? ==> Snapshot() == old(Snapshot())
      ensures r.Some? ==> r.value == Completed(old(tasks)[id], userId, now)
      ensures r.Some? ==> Snapshot() == old(Snapshot()).(tasks := old(tasks)[id := r.value])
    {
      if id !in tasks {
        return None;
      }
      var updated := Completed(tasks[id], userId, now);
      tasks := tasks[id := updated];
      r := Some(updated);
    }

    // ----- task notes --------------------------------------------------------

    /** The notes attached to task `taskId`, oldest first. */
    function GetTaskNotes(taskId: int): (r: seq<TaskNote>)
      reads this
      ensures forall n :: n in r <==> n in taskNotes.Values && n.taskId == taskId
      ensures Valid() ==> forall i, j :: 0 <= i < j < |r| ==> r[i].id < r[j].id
    {
      var p := (n: TaskNote) => n.taskId == taskId;
      ValuesMembership(taskNotes);
      FilterExact(Values(taskNotes), p);
      SortedKeysIncreasing(taskNotes.Keys);
      FilterKeepsOrder(Values(taskNotes), p, (a: TaskNote, b: TaskNote) => a.id < b.id);
      Filter(Values(taskNotes), p)
    }

    method CreateTaskNote(input: NewTaskNote, now: int) returns (note: TaskNote)
      requires Valid()
      modifies this
      ensures Valid()
      ensures note == TaskNote(old(currentId), input.taskId, input.userId, input.notes, now)
      ensures note.id !in Ids(old(Snapshot()))
      ensures Snapshot() == old(Snapshot()).(taskNotes := old(taskNotes)[note.id := note], currentId := old(currentId) + 1)
      ensures GetTaskNotes(input.taskId) == old(GetTaskNotes(input.taskId)) + [note]
    {
      ghost var before := Snapshot();
      FreshId(before);
      var id := currentId;
      currentId := currentId + 1;
      note := TaskNote(id, input.taskId, input.userId, input.notes, now);
      taskNotes := taskNotes[id := note];
      InsertTaskNoteConsistent(before, note);
      assert Snapshot() == before.(taskNotes := before.taskNotes[id := note], currentId := before.currentId + 1);
      ValuesAppend(before.taskNotes, id, note);
      FilterAppend(Values(old(taskNotes)), note, (n: TaskNote) => n.taskId == input.taskId);
    }

    method UpdateTaskNote(id: int, notes: string) returns (r: Option<TaskNote>)
      requires Valid()
      modifies this
      ensures Valid()
      ensures r.None? <==> id !in old(taskNotes)
      ensures r.None? ==> Snapshot() == old(Snapshot())
      ensures r.Some? ==> r.value == old(taskNotes)[id].(notes := notes)
      ensures r.Some? ==> Snapshot() == old(Snapshot()).(taskNotes := old(taskNotes)[id := r.value])
    {
      if id !in taskNotes {
        return None;
      }
      var updated := taskNotes[id].(notes := notes);
      taskNotes := taskNotes[id := updated];
      r := Some(updated);
    }

    // ----- important messages ------------------------------------------------

    function AllImportantMessages(): (r: seq<ImportantMessage>)
      reads this
      ensures forall m :: m in r <==> m in importantMessages.Values
      ensures Valid() ==> forall i, j :: 0 <= i < j < |r| ==> r[i].id < r[j].id
    {
      ValuesMembership(importantMessages);
      SortedKeysIncreasing(importantMessages.Keys);
      Values(importantMessages)
    }

    /** The messages whose `active` field is truthy, oldest first. */
    function ActiveImportantMessages(): (r: seq<ImportantMessage>)
      reads this
      ensures forall m :: m in r <==> m in importantMessages.Values && IsActive(m)
      ensures Valid() ==> forall i, j :: 0 <= i < j < |r| ==> r[i].id < r[j].id
    {
      ValuesMembership(importantMessages);
      FilterExact(Values(importantMessages), IsActive);
      SortedKeysIncreasing(importantMessages.Keys);
      FilterKeepsOrder(Values(importantMessages), IsActive, (a: ImportantMessage, b: ImportantMessage) => a.id < b.id);
      Filter(Values(importantMessages), IsActive)
    }

    method CreateImportantMessage(input: NewMessage, now: int) returns (msg: ImportantMessage)
      requires Valid()
      modifies this
      ensures Valid()
      ensures msg == ImportantMessage(old(currentId), input.title, input.content, input.active, now)
      ensures msg.id !in Ids(old(Snapshot()))
      ensures Snapshot() == old(Snapshot()).(importantMessages := old(importantMessages)[msg.id := msg],
                                             currentId := old(currentId) + 1)
      ensures AllImportantMessages() == old(AllImportantMessages()) + [msg]
      ensures ActiveImportantMessages() == old(ActiveImportantMessages()) + (if IsActive(msg) then [msg] else [])
    {
      ghost var before := Snapshot();
      FreshId(before);
      var id := currentId;
      currentId := currentId + 1;
      msg := ImportantMessage(id, input.title, input.content, input.active, now);
      importantMessages := importantMessages[id := msg];
      InsertMessageConsistent(before, msg);
      assert Snapshot() == before.(importantMessages := before.importantMessages[id := msg], currentId := before.currentId + 1);
      ValuesAppend(before.importantMessages, id, msg);
      assert AllImportantMessages() == Values(importantMessages);
      FilterAppend(Values(old(importantMessages)), msg, IsActive);
    }

    method UpdateImportantMessage(id: int, patch: MessagePatch) returns (r: Option<ImportantMessage>)
      requires Valid()
      modifies this
      ensures Valid()
      ensures r.None? <==> id !in old(importantMessages)
      ensures r.None? ==> Snapshot() == old(Snapshot())
      ensures r.Some? ==> r.value == MergeMessage(old(importantMessages)[id], patch)
      ensures r.Some? ==> Snapshot() == old(Snapshot()).(importantMessages := old(importantMessages)[id := r.value])
    {
      if id !in importantMessages {
        return None;
      }
      var updated := MergeMessage(importantMessages[id], patch);
      importantMessages := importantMessages[id := updated];
      r := Some(updated);
    }

    method DeleteImportantMessage(id: int) returns (deleted: bool)
      requires Valid()
      modifies this
      ensures Valid()
      ensures deleted <==> id in old(importantMessages)
      ensures Snapshot() == old(Snapshot()).(importantMessages := old(importantMessages) - {id})
    {
      deleted := id in importantMessages;
      importantMessages := importantMessages - {id};
    }

    // ----- acknowledgements --------------------------------------------------

    /** Always records a new acknowledgement: no check that the message exists
        and no de-duplication of repeated acknowledgements. */
    method AcknowledgeMessage(messageId: int, userId: int, now: int) returns (ack: MessageAcknowledgement)
      requires Valid()
      modifies this
      ensures Valid()
      ensures ack == MessageAcknowledgement(old(currentId), messageId, userId, now)
      ensures ack.id !in Ids(old(Snapshot()))
      ensures Snapshot() == old(Snapshot()).(messageAcknowledgements := old(messageAcknowledgements)[ack.id := ack],
                                             currentId := old(currentId) + 1)
      ensures GetMessageAcknowledgements(messageId) == old(GetMessageAcknowledgements(messageId)) + [ack]
      ensures GetUserAcknowledgements(userId) == old(GetUserAcknowledgements(userId)) + [ack]
    {
      ghost var before := Snapshot();
      FreshId(before);
      var id := currentId;
      currentId := currentId + 1;
      ack := MessageAcknowledgement(id, messageId, userId, now);
      messageAcknowledgements := messageAcknowledgements[id := ack];
      InsertAcknowledgementConsistent(before, ack);
      assert Snapshot() == before.(messageAcknowledgements := before.messageAcknowledgements[id := ack], currentId := before.currentId + 1);
      ValuesAppend(before.messageAcknowledgements, id, ack);
      FilterAppend(Values(old(messageAcknowledgements)), ack, (a: MessageAcknowledgement) => a.messageId == messageId);
      FilterAppend(Values(old(messageAcknowledgements)), ack, (a: MessageAcknowledgement) => a.userId == userId);
    }

    function GetMessageAcknowledgements(messageId: int): (r: seq<MessageAcknowledgement>)
      reads this
      ensures forall a :: a in r <==> a in messageAcknowledgements.Values && a.messageId == messageId
      ensures Valid() ==> forall i, j :: 0 <= i < j < |r| ==> r[i].id < r[j].id
    {
      var p := (a: MessageAcknowledgement) => a.messageId == messageId;
      ValuesMembership(messageAcknowledgements);
      FilterExact(Values(messageAcknowledgements), p);
      SortedKeysIncreasing(messageAcknowledgements.Keys);
      FilterKeepsOrder(Values(messageAcknowledgements), p, (a: MessageAcknowledgement, b: MessageAcknowledgement) => a.id < b.id);
      Filter(Values(messageAcknowledgements), p)
    }

    function GetUserAcknowledgements(userId: int): (r: seq<MessageAcknowledgement>)
      reads this
      ensures forall a :: a in r <==> a in messageAcknowledgements.Values && a.userId == userId
      ensures Valid() ==> forall i, j :: 0 <= i < j < |r| ==> r[i].id < r[j].id
    {
      var p := (a: MessageAcknowledgement) => a.userId == userId;
      ValuesMembership(messageAcknowledgements);
      FilterExact(Values(messageAcknowledgements), p);
      SortedKeysIncreasing(messageAcknowledgements.Keys);
      FilterKeepsOrder(Values(messageAcknowledgements), p, (a: MessageAcknowledgement, b: MessageAcknowledgement) => a.id < b.id);
      Filter(Values(messageAcknowledgements), p)
    }

    // ----- employee notes ----------------------------------------------------

    function AllEmployeeNotes(): (r: seq<EmployeeNote>)
      reads this
      ensures forall n :: n in r <==> n in employeeNotes.Values
      ensures Valid() ==> forall i, j :: 0 <= i < j < |r| ==> r[i].id < r[j].id
    {
      ValuesMembership(employeeNotes);
      SortedKeysIncreasing(employeeNotes.Keys);
      Values(employeeNotes)
    }

    function UnresolvedEmployeeNotes(): (r: seq<EmployeeNote>)
      reads this
      ensures forall n :: n in r <==> n in employeeNotes.Values && !n.resolved
      ensures Valid() ==> forall i, j :: 0 <= i < j < |r| ==> r[i].id < r[j].id
    {
      var p := (n: EmployeeNote) => !n.resolved;
      ValuesMembership(employeeNotes);
      FilterExact(Values(employeeNotes), p);
      SortedKeysIncreasing(employeeNotes.Keys);
      FilterKeepsOrder(Values(employeeNotes), p, (a: EmployeeNote, b: EmployeeNote) => a.id < b.id);
      Filter(Values(employeeNotes), p)
    }

    method CreateEmployeeNote(input: NewEmployeeNote, now: int) returns (note: EmployeeNote)
      requires Valid()
      modifies this
      ensures Valid()
      ensures note == EmployeeNote(old(currentId), input.userId, input.content, false, None, now)
      ensures note.id !in Ids(old(Snapshot()))
      ensures Snapshot() == old(Snapshot()).(employeeNotes := old(employeeNotes)[note.id := note],
                                             currentId := old(currentId) + 1)
      ensures AllEmployeeNotes() == old(AllEmployeeNotes()) + [note]
      ensures UnresolvedEmployeeNotes() == old(UnresolvedEmployeeNotes()) + [note]
    {
      ghost var before := Snapshot();
      FreshId(before);
      var id := currentId;
      currentId := currentId + 1;
      note := EmployeeNote(id, input.userId, input.content, false, None, now);
      employeeNotes := employeeNotes[id := note];
      InsertEmployeeNoteConsistent(before, note);
      assert Snapshot() == before.(employeeNotes := before.employeeNotes[id := note], currentId := before.currentId + 1);
      ValuesAppend(before.employeeNotes, id, note);
      assert AllEmployeeNotes() == Values(employeeNotes);
      FilterAppend(Values(old(employeeNotes)), note, (n: EmployeeNote) => !n.resolved);
    }

    method ResolveEmployeeNote(id: int, now: int) returns (r: Option<EmployeeNote>)
      requires Valid()
      modifies this
      ensures Valid()
      ensures r.None? <==> id !in old(employeeNotes)
      ensures r.None? ==> Snapshot() == old(Snapshot())
      ensures r.Some? ==> r.value == Resolved(old(employeeNotes)[id], now)
      ensures r.Some? ==> Snapshot() == old(Snapshot()).(employeeNotes := old(employeeNotes)[id := r.value])
      ensures r.Some? ==> r.value !in UnresolvedEmployeeNotes()
    {
      if id !in employeeNotes {
        return None;
      }
      var updated := Resolved(employeeNotes[id], now);
      employeeNotes := employeeNotes[id := updated];
      r := Some(updated);
    }
  }

  /** Index `i` of `users` holds the first user named `name`. */
  ghost predicate FirstNamed(users: seq<User>, name: string, i: int) {
    0 <= i < |users| && users[i].username == name
    && forall j :: 0 <= j < i ==> users[j].username != name
  }
}
