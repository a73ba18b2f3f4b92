/** The request-decision layer in front of the store: the two gates, login,
    logout and "me", and for every API route the mapping from the store's
    answer to a status code (section 15 of RFC 9110) and a response body.
    A session is the identity stored at login, or nothing. */
module Routes {
  import opened Wrappers
  import opened Schema
  import opened Collections
  import opened Storage

  // ---------------------------------------------------------------------------
  // Sessions and gates
  // ---------------------------------------------------------------------------

  /** What a successful login stores in the session: `{ id, username, role }`. */
  datatype Identity = Identity(id: int, username: string, role: Option<string>)

  type Session = Option<Identity>

  /** The outcome of a gate: hand over to the route, or answer at once. */
  datatype Gate = Pass | Reject(status: int, message: string)

  predicate IsAdmin(session: Session) {
    session.Some? && session.value.role == Some("admin")
  }

  /** `requireAuth`: 401 exactly when no one is logged in. */
  function RequireAuth(session: Session): (g: Gate)
    ensures g.Reject? <==> session.None?
    ensures g.Reject? ==> g.status == 401 && g.message == "Authentication required"
  {
    if session.None? then Reject(401, "Authentication required") else Pass
  }

  /** `requireAdmin`: 403 when no one is logged in or the role is not "admin";
      it never answers 401. */
  function RequireAdmin(session: Session): (g: Gate)
    ensures g.Pass? <==> session.Some? && session.value.role == Some("admin")
    ensures g.Reject? ==> g.status == 403 && g.message == "Admin access required"
  {
    if !IsAdmin(session) then Reject(403, "Admin access required") else Pass
  }

  /** Whoever passes the admin gate passes the authentication gate. */
  lemma AdminGateImpliesAuthGate(session: Session)
    ensures RequireAdmin(session).Pass? ==> RequireAuth(session).Pass?
    ensures session.None? ==> RequireAdmin(session) == Reject(403, "Admin access required")
  {
  }

  // ---------------------------------------------------------------------------
  // Requests and responses
  // ---------------------------------------------------------------------------

  /** The API routes with the parts of the request each one reads. A create
      body is `None` when schema validation rejects it. `upload` is the stored
      name of an accepted image file. `claimedUserId` is a `userId` the client
      may put in the body; the routes ignore it. */
  datatype Request =
    | PostLogin(username: string, password: string)
    | PostLogout
    | GetMe
    | GetTasks
    | PostTask(newTask: Option<NewTask>, upload: Option<string>)
    | PutTask(id: int, taskPatch: TaskPatch, upload: Option<string>)
    | DeleteTask(id: int)
    | PostTaskComplete(id: int)
    | GetTaskNotes(id: int)
    | PostTaskNote(id: int, notes: string, claimedUserId: Option<int>)
    | GetMessages
    | GetAllMessages
    | PostMessage(newMessage: Option<NewMessage>)
    | PutMessage(id: int, messagePatch: MessagePatch)
    | DeleteMessage(id: int)
    | PostAcknowledge(id: int)
    | GetAcknowledgements(id: int)
    | GetEmployeeNotes
    | GetUnresolvedNotes
    | PostEmployeeNote(content: string, claimedUserId: Option<int>)
    | PostResolve(id: int)
    | GetUsers
    | PostUser(newUser: Option<NewUser>)
    | PutUser(id: int, userPatch: UserPatch)
    | DeleteUser(id: int)

  datatype Access = Open | Authenticated | AdminOnly

  /** The gate each route is registered behind. */
  function AccessOf(req: Request): Access {
    match req
    case PostLogin(_, _) => Open
    case PostLogout => Open
    case GetMe => Open
    case GetTasks => Authenticated
    case PostTaskComplete(_) => Authenticated
    case GetTaskNotes(_) => Authenticated
    case PostTaskNote(_, _, _) => Authenticated
    case GetMessages => Authenticated
    case PostAcknowledge(_) => Authenticated
    case PostEmployeeNote(_, _) => Authenticated
    case _ => AdminOnly
  }

  /** The gate in front of `req`, applied to `session`. */
  function Guard(req: Request, session: Session): (g: Gate)
    ensures AccessOf(req) == Open ==> g.Pass?
    ensures AccessOf(req) == Authenticated ==> g == RequireAuth(session)
    ensures AccessOf(req) == AdminOnly ==> g == RequireAdmin(session)
  {
    match AccessOf(req)
    case Open => Pass
    case Authenticated => RequireAuth(session)
    case AdminOnly => RequireAdmin(session)
  }

  /** The route table by who is asking. Without a session only login, logout
      and "me" get through. A logged-in user who is not an admin also reaches
      the task list, completing a task, reading and adding task notes, the
      active messages, acknowledging a message and filing an employee note.
      An admin reaches every route. A visitor without a session is turned
      away from those employee routes with 401 and from the rest with 403;
      a logged-in non-admin gets 403. */
  lemma RouteTable(req: Request, session: Session)
    ensures session.None? ==> (Guard(req, session).Pass? <==> req.PostLogin? || req.PostLogout? || req.GetMe?)
    ensures session.Some? && session.value.role != Some("admin") ==>
              (Guard(req, session).Pass? <==>
                 || req.PostLogin? || req.PostLogout? || req.GetMe?
                 || req.GetTasks? || req.PostTaskComplete? || req.GetTaskNotes? || req.PostTaskNote?
                 || req.GetMessages? || req.PostAcknowledge? || req.PostEmployeeNote?)
    ensures session.Some? && session.value.role == Some("admin") ==> Guard(req, session).Pass?
    ensures Guard(req, session).Reject? ==>
              (Guard(req, session).status == 401 <==>
                 session.None? &&
                 (|| req.GetTasks? || req.PostTaskComplete? || req.GetTaskNotes? || req.PostTaskNote?
                  || req.GetMessages? || req.PostAcknowledge? || req.PostEmployeeNote?))
    ensures Guard(req, session).Reject? ==> Guard(req, session).status in {401, 403}
  {
  }

  /** A user as the API sends it: the password is dropped. */
  datatype PublicUser = PublicUser(
    id: int,
    username: string,
    email: Option<string>,
    role: Option<string>,
    createdAt: int)

  /** `{ ...user, password: undefined }`: every field but the password. */
  function StripPassword(u: User): (p: PublicUser)
    ensures p.id == u.id && p.username == u.username && p.email == u.email
    ensures p.role == u.role && p.createdAt == u.createdAt
  {
    PublicUser(u.id, u.username, u.email, u.role, u.createdAt)
  }

  /** The stripped user plus the password is the stored user again, so the
      password is the only thing the response leaves out. */
  lemma StripPasswordLosesOnlyPassword(u: User, v: User)
    ensures StripPassword(u) == StripPassword(v) <==> u.(password := v.password) == v
  {
  }

  /** Response bodies. No variant carries a `User`, so no response can carry
      a password. */
  datatype Body =
    | Note(message: string)
    | UserInfo(user: Identity)
    | TaskBody(task: Task)
    | TaskList(tasks: seq<Task>)
    | TaskNoteBody(taskNote: TaskNote)
    | TaskNoteList(taskNotes: seq<TaskNote>)
    | MessageBody(importantMessage: ImportantMessage)
    | MessageList(importantMessages: seq<ImportantMessage>)
    | AcknowledgementBody(acknowledgement: MessageAcknowledgement)
    | AcknowledgementList(acknowledgements: seq<MessageAcknowledgement>)
    | EmployeeNoteBody(employeeNote: EmployeeNote)
    | EmployeeNoteList(employeeNotes: seq<EmployeeNote>)
    | PublicUserBody(publicUser: PublicUser)
    | PublicUserList(publicUsers: seq<PublicUser>)

  datatype Response = Response(status: int, body: Body)

  datatype Outcome = Outcome(response: Response, session: Session)

  function Rejection(g: Gate): Response
    requires g.Reject?
  {
    Response(g.status, Note(g.message))
  }

  // ---------------------------------------------------------------------------
  // Login, and the routes that only read
  // ---------------------------------------------------------------------------

  /** The identity a login stores for `u`. */
  function IdentityOf(u: User): (i: Identity)
    ensures i.id == u.id && i.username == u.username && i.role == u.role
  {
    Identity(u.id, u.username, u.role)
  }

  /** `POST /api/auth/login`: the first user with that username, if its
      password is exactly the one supplied, becomes the session; an unknown
      username and a wrong password get the same 401 and leave the session
      as it was. */
  function Login(store: MemStorage, session: Session, username: string, password: string): (r: Outcome)
    reads store
    ensures r.response.status == 200 <==>
              exists i :: FirstNamed(store.AllUsers(), username, i) && store.AllUsers()[i].password == password
    ensures r.response.status != 200 ==>
              r == Outcome(Response(401, Note("Invalid credentials")), session)
    ensures r.response.status == 200 ==>
              exists i :: FirstNamed(store.AllUsers(), username, i)
                       && r.session == Some(IdentityOf(store.AllUsers()[i]))
                       && r.response.body == UserInfo(IdentityOf(store.AllUsers()[i]))
  {
    var found := store.GetUserByUsername(username);
    FirstNamedUnique(store.AllUsers(), username);
    if found.None? || found.value.password != password then
      Outcome(Response(401, Note("Invalid credentials")), session)
    else
      var identity := IdentityOf(found.value);
      Outcome(Response(200, UserInfo(identity)), Some(identity))
  }

  /** At most one index holds the first user with a given name. */
  lemma FirstNamedUnique(users: seq<User>, name: string)
    ensures forall i, j :: FirstNamed(users, name, i) && FirstNamed(users, name, j) ==> i == j
  {
  }

  /** The routes that read and change nothing, once past their gate. */
  predicate IsQuery(req: Request) {
    req.GetMe? || req.GetTasks? || req.GetTaskNotes? || req.GetMessages? || req.GetAllMessages?
    || req.GetAcknowledgements? || req.GetEmployeeNotes? || req.GetUnresolvedNotes? || req.GetUsers?
  }

  /** `GET /api/auth/me`: the session's identity, or 401. */
  function Me(session: Session): (r: Response)
    ensures r.status == 200 <==> session.Some?
    ensures session.None? ==> r == Response(401, Note("Not authenticated"))
    ensures session.Some? ==> r.body == UserInfo(session.value)
  {
    if session.None? then Response(401, Note("Not authenticated")) else Response(200, UserInfo(session.value))
  }

  /** `GET /api/tasks`: every task. */
  function ListTasks(store: MemStorage): (r: Response)
    reads store
    ensures r.status == 200 && r.body.TaskList?
    ensures forall t :: t in r.body.tasks <==> t in store.tasks.Values
    ensures r.body.tasks == store.AllTasks()
  {
    Response(200, TaskList(store.AllTasks()))
  }

  /** `GET /api/tasks/:id/notes`: the notes on that task. */
  function ListTaskNotes(store: MemStorage, taskId: int): (r: Response)
    reads store
    ensures r.status == 200 && r.body.TaskNoteList?
    ensures forall n :: n in r.body.taskNotes <==> n in store.taskNotes.Values && n.taskId == taskId
    ensures r.body.taskNotes == store.GetTaskNotes(taskId)
  {
    Response(200, TaskNoteList(store.GetTaskNotes(taskId)))
  }

  /** `GET /api/messages`: the active messages only. */
  function ListActiveMessages(store: MemStorage): (r: Response)
    reads store
    ensures r.status == 200 && r.body.MessageList?
    ensures forall m :: m in r.body.importantMessages <==> m in store.importantMessages.Values && IsActive(m)
    ensures r.body.importantMessages == store.ActiveImportantMessages()
  {
    Response(200, MessageList(store.ActiveImportantMessages()))
  }

  /** `GET /api/messages/all`: every message, inactive ones included. */
  function ListAllMessages(store: MemStorage): (r: Response)
    reads store
    ensures r.status == 200 && r.body.MessageList?
    ensures forall m :: m in r.body.importantMessages <==> m in store.importantMessages.Values
    ensures r.body.importantMessages == store.AllImportantMessages()
  {
    Response(200, MessageList(store.AllImportantMessages()))
  }

  /** `GET /api/messages/:id/acknowledgements`: the acknowledgements of that message. */
  function ListAcknowledgements(store: MemStorage, messageId: int): (r: Response)
    reads store
    ensures r.status == 200 && r.body.AcknowledgementList?
    ensures forall a :: a in r.body.acknowledgements <==> a in store.messageAcknowledgements.Values && a.messageId == messageId
    ensures r.body.acknowledgements == store.GetMessageAcknowledgements(messageId)
  {
    Response(200, AcknowledgementList(store.GetMessageAcknowledgements(messageId)))
  }

  /** `GET /api/employee-notes`: every employee note. */
  function ListEmployeeNotes(store: MemStorage): (r: Response)
    reads store
    ensures r.status == 200 && r.body.EmployeeNoteList?
    ensures forall n :: n in r.body.employeeNotes <==> n in store.employeeNotes.Values
    ensures r.body.employeeNotes == store.AllEmployeeNotes()
  {
    Response(200, EmployeeNoteList(store.AllEmployeeNotes()))
  }

  /** `GET /api/employee-notes/unresolved`: the unresolved employee notes. */
  function ListUnresolvedNotes(store: MemStorage): (r: Response)
    reads store
    ensures r.status == 200 && r.body.EmployeeNoteList?
    ensures forall n :: n in r.body.employeeNotes <==> n in store.employeeNotes.Values && !n.resolved
    ensures r.body.employeeNotes == store.UnresolvedEmployeeNotes()
  {
    Response(200, EmployeeNoteList(store.UnresolvedEmployeeNotes()))
  }

  /** `GET /api/users`: every user, in store order, each without its password. */
  function ListUsers(store: MemStorage): (r: Response)
    reads store
    ensures r.status == 200 && r.body.PublicUserList?
    ensures |r.body.publicUsers| == |store.AllUsers()|
    ensures forall i :: 0 <= i < |r.body.publicUsers| ==> r.body.publicUsers[i] == StripPassword(store.AllUsers()[i])
  {
    var all := store.AllUsers();
    var stripped := seq(|all|, i requires 0 <= i < |all| => StripPassword(all[i]));
    Response(200, PublicUserList(stripped))
  }

  /** The answer to a read-only route once past its gate. */
  function Query(store: MemStorage, session: Session, req: Request): (r: Response)
    requires IsQuery(req)
    reads store
    ensures r.status == 200 <==> !req.GetMe? || session.Some?
    ensures req.GetMe? && session.Some? ==> r.body == UserInfo(session.value)
    ensures req.GetTasks? ==>
              r.body.TaskList? && r.body.tasks == store.AllTasks() &&
              forall t :: t in r.body.tasks <==> t in store.tasks.Values
    ensures req.GetTaskNotes? ==>
              r.body.TaskNoteList? && r.body.taskNotes == store.GetTaskNotes(req.id) &&
              forall n :: n in r.body.taskNotes <==> n in store.taskNotes.Values && n.taskId == req.id
    ensures req.GetMessages? ==>
              r.body.MessageList? && r.body.importantMessages == store.ActiveImportantMessages() &&
              forall m :: m in r.body.importantMessages <==> m in store.importantMessages.Values && IsActive(m)
    ensures req.GetAllMessages? ==>
              r.body.MessageList? && r.body.importantMessages == store.AllImportantMessages() &&
              forall m :: m in r.body.importantMessages <==> m in store.importantMessages.Values
    ensures req.GetAcknowledgements? ==>
              r.body.AcknowledgementList? && r.body.acknowledgements == store.GetMessageAcknowledgements(req.id) &&
              forall a :: a in r.body.acknowledgements <==> a in store.messageAcknowledgements.Values && a.messageId == req.id
    ensures req.GetEmployeeNotes? ==>
              r.body.EmployeeNoteList? && r.body.employeeNotes == store.AllEmployeeNotes() &&
              forall n :: n in r.body.employeeNotes <==> n in store.employeeNotes.Values
    ensures req.GetUnresolvedNotes? ==>
              r.body.EmployeeNoteList? && r.body.employeeNotes == store.UnresolvedEmployeeNotes() &&
              forall n :: n in r.body.employeeNotes <==> n in store.employeeNotes.Values && !n.resolved
    ensures req.GetUsers? ==>
              r.body.PublicUserList? && |r.body.publicUsers| == |store.AllUsers()| &&
              forall i :: 0 <= i < |r.body.publicUsers| ==> r.body.publicUsers[i] == StripPassword(store.AllUsers()[i])
  {
    match req
    case GetMe => Me(session)
    case GetTasks => ListTasks(store)
    case GetTaskNotes(taskId) => ListTaskNotes(store, taskId)
    case GetMessages => ListActiveMessages(store)
    case GetAllMessages => ListAllMessages(store)
    case GetAcknowledgements(messageId) => ListAcknowledgements(store, messageId)
    case GetEmployeeNotes => ListEmployeeNotes(store)
    case GetUnresolvedNotes => ListUnresolvedNotes(store)
    case GetUsers => ListUsers(store)
  }

  /** The seeded administrator can log in with the seeded password, and gets
      the session of user 1 with role "admin". */
  lemma SeedAdminLogsIn(store: MemStorage, now: int, session: Session)
    requires store.Snapshot() == SeedTables(now)
    ensures Login(store, session, AdminName, AdminPassword)
              == Outcome(Response(200, UserInfo(Identity(1, AdminName, Some(AdminRole)))),
                         Some(Identity(1, AdminName, Some(AdminRole))))
  {
    var found := store.GetUserByUsername(AdminName);
    assert store.users[1].username == AdminName;
    assert store.users[1] in store.users.Values;
    var u := found.value;
    assert u in store.users.Values;
    assert store.users.Keys == {1, 2};
    var k :| k in store.users && store.users[k] == u;
    assert store.users[2].username != AdminName;
    assert k == 1;
  }

  // ---------------------------------------------------------------------------
  // The routes that change the store
  // ---------------------------------------------------------------------------

  /** The URL an uploaded image is served from. */
  function UploadUrl(filename: string): (url: string)
    ensures |url| == 9 + |filename| && url[..9] == "/uploads/" && url[9..] == filename
  {
    "/uploads/" + filename
  }

  /** A task body with the uploaded image, when there is one, as its `imageUrl`. */
  function WithUpload(data: NewTask, upload: Option<string>): (r: NewTask)
    ensures r.title == data.title && r.description == data.description
    ensures r.imageUrl == (if upload.Some? then Some(UploadUrl(upload.value)) else data.imageUrl)
  {
    if upload.Some? then data.(imageUrl := Some(UploadUrl(upload.value))) else data
  }

  /** A task patch with the uploaded image, when there is one, as its `imageUrl`. */
  function PatchWithUpload(patch: TaskPatch, upload: Option<string>): (r: TaskPatch)
    ensures r.title == patch.title && r.description == patch.description
    ensures r.imageUrl == (if upload.Some? then Some(Some(UploadUrl(upload.value))) else patch.imageUrl)
  {
    if upload.Some? then patch.(imageUrl := Some(Some(UploadUrl(upload.value)))) else patch
  }

  /** `POST /api/tasks`: 400 when the body fails validation, otherwise the new task. */
  method HandlePostTask(store: MemStorage, newTask: Option<NewTask>, upload: Option<string>, now: int)
    returns (resp: Response)
    requires store.Valid()
    modifies store
    ensures store.Valid()
    ensures newTask.None? ==> resp == Response(400, Note("Failed to create task"))
    ensures newTask.None? ==> store.Snapshot() == old(store.Snapshot())
    ensures newTask.Some? ==> resp.status == 200 && resp.body.TaskBody?
    ensures newTask.Some? ==> resp.body.task == Task(old(store.currentId), newTask.value.title, newTask.value.description,
                                                     WithUpload(newTask.value, upload).imageUrl, false, None, None, now)
    ensures newTask.Some? ==> store.Snapshot() == old(store.Snapshot()).(tasks := old(store.tasks)[resp.body.task.id := resp.body.task],
                                                                         currentId := old(store.currentId) + 1)
  {
    if newTask.None? {
      return Response(400, Note("Failed to create task"));
    }
    var task := store.CreateTask(WithUpload(newTask.value, upload), now);
    resp := Response(200, TaskBody(task));
  }

  /** `PUT /api/tasks/:id`: 404 when there is no such task, otherwise the merged task. */
  method HandlePutTask(store: MemStorage, id: int, patch: TaskPatch, upload: Option<string>) returns (resp: Response)
    requires store.Valid()
    modifies store
    ensures store.Valid()
    ensures id !in old(store.tasks) ==> resp == Response(404, Note("Task not found"))
    ensures id !in old(store.tasks) ==> store.Snapshot() == old(store.Snapshot())
    ensures id in old(store.tasks) ==> resp == Response(200, TaskBody(MergeTask(old(store.tasks)[id], PatchWithUpload(patch, upload))))
    ensures id in old(store.tasks) ==> store.Snapshot() == old(store.Snapshot()).(tasks := old(store.tasks)[id := resp.body.task])
  {
    var task := store.UpdateTask(id, PatchWithUpload(patch, upload));
    if task.None? {
      return Response(404, Note("Task not found"));
    }
    resp := Response(200, TaskBody(task.value));
  }

  /** `DELETE /api/tasks/:id`: 404 when there was no such task. */
  method HandleDeleteTask(store: MemStorage, id: int) returns (resp: Response)
    requires store.Valid()
    modifies store
    ensures store.Valid()
    ensures resp == if id in old(store.tasks) then Response(200, Note("Task deleted successfully"))
                    else Response(404, Note("Task not found"))
    ensures store.Snapshot() == old(store.Snapshot()).(tasks := old(store.tasks) - {id})
  {
    var deleted := store.DeleteTask(id);
    if !deleted {
      return Response(404, Note("Task not found"));
    }
    resp := Response(200, Note("Task deleted successfully"));
  }

  /** `POST /api/tasks/:id/complete`: completed by the logged-in user. */
  method HandleCompleteTask(store: MemStorage, actor: Identity, id: int, now: int) returns (resp: Response)
    requires store.Valid()
    modifies store
    ensures store.Valid()
    ensures id !in old(store.tasks) ==> resp == Response(404, Note("Task not found"))
    ensures id !in old(store.tasks) ==> store.Snapshot() == old(store.Snapshot())
    ensures id in old(store.tasks) ==> resp == Response(200, TaskBody(Completed(old(store.tasks)[id], actor.id, now)))
    ensures id in old(store.tasks) ==> store.Snapshot() == old(store.Snapshot()).(tasks := old(store.tasks)[id := resp.body.task])
  {
    var task := store.CompleteTask(id, actor.id, now);
    if task.None? {
      return Response(404, Note("Task not found"));
    }
    resp := Response(200, TaskBody(task.value));
  }

  /** `POST /api/tasks/:id/notes`: a note by the logged-in user; the task is
      not looked up. */
  method HandlePostTaskNote(store: MemStorage, actor: Identity, taskId: int, notes: string, now: int)
    returns (resp: Response)
    requires store.Valid()
    modifies store
    ensures store.Valid()
    ensures resp == Response(200, TaskNoteBody(TaskNote(old(store.currentId), taskId, actor.id, notes, now)))
    ensures store.Snapshot() == old(store.Snapshot()).(taskNotes := old(store.taskNotes)[resp.body.taskNote.id := resp.body.taskNote],
                                                       currentId := old(store.currentId) + 1)
  {
    var note := store.CreateTaskNote(NewTaskNote(taskId, actor.id, notes), now);
    resp := Response(200, TaskNoteBody(note));
  }

  /** `POST /api/messages`: 400 when the body fails validation. */
  method HandlePostMessage(store: MemStorage, newMessage: Option<NewMessage>, now: int) returns (resp: Response)
    requires store.Valid()
    modifies store
    ensures store.Valid()
    ensures newMessage.None? ==> resp == Response(400, Note("Failed to create message"))
    ensures newMessage.None? ==> store.Snapshot() == old(store.Snapshot())
    ensures newMessage.Some? ==> resp == Response(200, MessageBody(ImportantMessage(old(store.currentId), newMessage.value.title,
                                                                                   newMessage.value.content, newMessage.value.active, now)))
    ensures newMessage.Some? ==> store.Snapshot() == old(store.Snapshot()).(
              importantMessages := old(store.importantMessages)[resp.body.importantMessage.id := resp.body.importantMessage],
              currentId := old(store.currentId) + 1)
  {
    if newMessage.None? {
      return Response(400, Note("Failed to create message"));
    }
    var msg := store.CreateImportantMessage(newMessage.value, now);
    resp := Response(200, MessageBody(msg));
  }

  /** `PUT /api/messages/:id`: 404 when there is no such message. */
  method HandlePutMessage(store: MemStorage, id: int, patch: MessagePatch) returns (resp: Response)
    requires store.Valid()
    modifies store
    ensures store.Valid()
    ensures id !in old(store.importantMessages) ==> resp == Response(404, Note("Message not found"))
    ensures id !in old(store.importantMessages) ==> store.Snapshot() == old(store.Snapshot())
    ensures id in old(store.importantMessages) ==>
              resp == Response(200, MessageBody(MergeMessage(old(store.importantMessages)[id], patch)))
    ensures id in old(store.importantMessages) ==>
              store.Snapshot() == old(store.Snapshot()).(importantMessages := old(store.importantMessages)[id := resp.body.importantMessage])
  {
    var msg := store.UpdateImportantMessage(id, patch);
    if msg.None? {
      return Response(404, Note("Message not found"));
    }
    resp := Response(200, MessageBody(msg.value));
  }

  /** `DELETE /api/messages/:id`: 404 when there was no such message. */
  method HandleDeleteMessage(store: MemStorage, id: int) returns (resp: Response)
    requires store.Valid()
    modifies store
    ensures store.Valid()
    ensures resp == if id in old(store.importantMessages) then Response(200, Note("Message deleted successfully"))
                    else Response(404, Note("Message not found"))
    ensures store.Snapshot() == old(store.Snapshot()).(importantMessages := old(store.importantMessages) - {id})
  {
    var deleted := store.DeleteImportantMessage(id);
    if !deleted {
      return Response(404, Note("Message not found"));
    }
    resp := Response(200, Note("Message deleted successfully"));
  }

  /** `POST /api/messages/:id/acknowledge`: an acknowledgement by the logged-in
      user, whether or not the message exists. */
  method HandleAcknowledge(store: MemStorage, actor: Identity, messageId: int, now: int) returns (resp: Response)
    requires store.Valid()
    modifies store
    ensures store.Valid()
    ensures resp == Response(200, AcknowledgementBody(MessageAcknowledgement(old(store.currentId), messageId, actor.id, now)))
    ensures store.Snapshot() == old(store.Snapshot()).(
              messageAcknowledgements := old(store.messageAcknowledgements)[resp.body.acknowledgement.id := resp.body.acknowledgement],
              currentId := old(store.currentId) + 1)
  {
    var ack := store.AcknowledgeMessage(messageId, actor.id, now);
    resp := Response(200, AcknowledgementBody(ack));
  }

  /** `POST /api/employee-notes`: an unresolved note by the logged-in user. */
  method HandlePostEmployeeNote(store: MemStorage, actor: Identity, content: string, now: int) returns (resp: Response)
    requires store.Valid()
    modifies store
    ensures store.Valid()
    ensures resp == Response(200, EmployeeNoteBody(EmployeeNote(old(store.currentId), actor.id, content, false, None, now)))
    ensures store.Snapshot() == old(store.Snapshot()).(
              employeeNotes := old(store.employeeNotes)[resp.body.employeeNote.id := resp.body.employeeNote],
              currentId := old(store.currentId) + 1)
  {
    var note := store.CreateEmployeeNote(NewEmployeeNote(actor.id, content), now);
    resp := Response(200, EmployeeNoteBody(note));
  }

  /** `POST /api/employee-notes/:id/resolve`: 404 when there is no such note. */
  method HandleResolve(store: MemStorage, id: int, now: int) returns (resp: Response)
    requires store.Valid()
    modifies store
    ensures store.Valid()
    ensures id !in old(store.employeeNotes) ==> resp == Response(404, Note("Note not found"))
    ensures id !in old(store.employeeNotes) ==> store.Snapshot() == old(store.Snapshot())
    ensures id in old(store.employeeNotes) ==> resp == Response(200, EmployeeNoteBody(Resolved(old(store.employeeNotes)[id], now)))
    ensures id in old(store.employeeNotes) ==>
              store.Snapshot() == old(store.Snapshot()).(employeeNotes := old(store.employeeNotes)[id := resp.body.employeeNote])
  {
    var note := store.ResolveEmployeeNote(id, now);
    if note.None? {
      return Response(404, Note("Note not found"));
    }
    resp := Response(200, EmployeeNoteBody(note.value));
  }

  /** `POST /api/users`: 400 when the body fails validation, otherwise the new
      user without its password. */
  method HandlePostUser(store: MemStorage, newUser: Option<NewUser>, now: int) returns (resp: Response)
    requires store.Valid()
    modifies store
    ensures store.Valid()
    ensures newUser.None? ==> resp == Response(400, Note("Failed to create user"))
    ensures newUser.None? ==> store.Snapshot() == old(store.Snapshot())
    ensures newUser.Some? ==> resp.status == 200 && resp.body.PublicUserBody?
    ensures newUser.Some? ==> resp == Response(200, PublicUserBody(StripPassword(User(old(store.currentId), newUser.value.username,
                                                                  newUser.value.password, newUser.value.email, newUser.value.role, now))))
    ensures newUser.Some? ==> store.Snapshot() == old(store.Snapshot()).(
              users := old(store.users)[old(store.currentId) := User(old(store.currentId), newUser.value.username,
                                                                     newUser.value.password, newUser.value.email, newUser.value.role, now)],
              currentId := old(store.currentId) + 1)
  {
    if newUser.None? {
      return Response(400, Note("Failed to create user"));
    }
    var user := store.CreateUser(newUser.value, now);
    resp := Response(200, PublicUserBody(StripPassword(user)));
  }

  /** `PUT /api/users/:id`: 404 when there is no such user, otherwise the
      merged user without its password. */
  method HandlePutUser(store: MemStorage, id: int, patch: UserPatch) returns (resp: Response)
    requires store.Valid()
    modifies store
    ensures store.Valid()
    ensures id !in old(store.users) ==> resp == Response(404, Note("User not found"))
    ensures id !in old(store.users) ==> store.Snapshot() == old(store.Snapshot())
    ensures id in old(store.users) ==> resp == Response(200, PublicUserBody(StripPassword(MergeUser(old(store.users)[id], patch))))
    ensures id in old(store.users) ==>
              store.Snapshot() == old(store.Snapshot()).(users := old(store.users)[id := MergeUser(old(store.users)[id], patch)])
  {
    var user := store.UpdateUser(id, patch);
    if user.None? {
      return Response(404, Note("User not found"));
    }
    resp := Response(200, PublicUserBody(StripPassword(user.value)));
  }

  /** `DELETE /api/users/:id`: 404 when there was no such user; nothing the
      user made is removed with it. */
  method HandleDeleteUser(store: MemStorage, id: int) returns (resp: Response)
    requires store.Valid()
    modifies store
    ensures store.Valid()
    ensures resp == if id in old(store.users) then Response(200, Note("User deleted successfully"))
                    else Response(404, Note("User not found"))
    ensures store.Snapshot() == old(store.Snapshot()).(users := old(store.users) - {id})
  {
    var deleted := store.DeleteUser(id);
    if !deleted {
      return Response(404, Note("User not found"));
    }
    resp := Response(200, Note("User deleted successfully"));
  }

  // ---------------------------------------------------------------------------
  // The routes that change the store, as values
  // ---------------------------------------------------------------------------

  /** The routes that change the store (and only the store). */
  predicate IsCommand(req: Request) {
    !IsQuery(req) && !req.PostLogin? && !req.PostLogout?
  }

  /** A task route past its gate: the answer, and the tables after it. Only the
      task and task-note tables and the counter can change; a 400 or 404
      changes nothing; ids of new records come from the counter; the user
      recorded as acting is the session's. */
  function TaskCommand(t: Tables, session: Session, req: Request, now: int): (r: (Response, Tables))
    requires req.PostTask? || req.PutTask? || req.DeleteTask? || req.PostTaskComplete? || req.PostTaskNote?
    requires Guard(req, session).Pass?
    ensures r.0.status != 200 ==> r.1 == t
    ensures r.0.status == 400 <==> req.PostTask? && req.newTask.None?
    ensures r.0.status == 404 <==> (req.PutTask? || req.DeleteTask? || req.PostTaskComplete?) && req.id !in t.tasks
    ensures r.1 == t.(tasks := r.1.tasks, taskNotes := r.1.taskNotes, currentId := r.1.currentId)
    ensures req.PostTask? && r.0.status == 200 ==>
              r.0.body.TaskBody? && r.0.body.task.id == t.currentId && !r.0.body.task.completed
              && r.1.tasks == t.tasks[t.currentId := r.0.body.task] && r.1.currentId == t.currentId + 1
    ensures req.PutTask? && r.0.status == 200 ==>
              r.0.body.TaskBody? && r.0.body.task.id == t.tasks[req.id].id
              && r.0.body.task.createdAt == t.tasks[req.id].createdAt
              && r.0.body.task.completed == t.tasks[req.id].completed
              && r.0.body.task.completedBy == t.tasks[req.id].completedBy
              && r.0.body.task.completedAt == t.tasks[req.id].completedAt
              && (req.taskPatch.title.Some? ==> r.0.body.task.title == req.taskPatch.title.value)
              && r.1.tasks == t.tasks[req.id := r.0.body.task]
    ensures req.DeleteTask? ==> r.1.tasks == t.tasks - {req.id} && r.1.taskNotes == t.taskNotes
    ensures req.PostTaskComplete? && r.0.status == 200 ==>
              r.0.body.TaskBody? && r.0.body.task.completed && r.0.body.task.completedBy == Some(session.value.id)
              && r.0.body.task.completedAt == Some(now)
              && r.0.body.task.(completed := t.tasks[req.id].completed, completedBy := t.tasks[req.id].completedBy,
                                completedAt := t.tasks[req.id].completedAt) == t.tasks[req.id]
              && r.1.tasks == t.tasks[req.id := r.0.body.task]
    ensures req.PostTaskNote? ==>
              r.0.status == 200 && r.0.body.TaskNoteBody? && r.0.body.taskNote.id == t.currentId
              && r.0.body.taskNote.taskId == req.id && r.0.body.taskNote.userId == session.value.id
              && r.1.taskNotes == t.taskNotes[t.currentId := r.0.body.taskNote] && r.1.currentId == t.currentId + 1
  {
    match req
    case PostTask(newTask, upload) =>
      if newTask.None? then (Response(400, Note("Failed to create task")), t)
      else
        var task := Task(t.currentId, newTask.value.title, newTask.value.description,
                         WithUpload(newTask.value, upload).imageUrl, false, None, None, now);
        (Response(200, TaskBody(task)), t.(tasks := t.tasks[task.id := task], currentId := t.currentId + 1))
    case PutTask(id, patch, upload) =>
      if id !in t.tasks then (Response(404, Note("Task not found")), t)
      else
        var task := MergeTask(t.tasks[id], PatchWithUpload(patch, upload));
        (Response(200, TaskBody(task)), t.(tasks := t.tasks[id := task]))
    case DeleteTask(id) =>
      if id !in t.tasks then (Response(404, Note("Task not found")), t)
      else (Response(200, Note("Task deleted successfully")), t.(tasks := t.tasks - {id}))
    case PostTaskComplete(id) =>
      if id !in t.tasks then (Response(404, Note("Task not found")), t)
      else
        var task := Completed(t.tasks[id], session.value.id, now);
        (Response(200, TaskBody(task)), t.(tasks := t.tasks[id := task]))
    case PostTaskNote(taskId, notes, _) =>
      var note := TaskNote(t.currentId, taskId, session.value.id, notes, now);
      (Response(200, TaskNoteBody(note)), t.(taskNotes := t.taskNotes[note.id := note], currentId := t.currentId + 1))
  }

  /** A message route past its gate. Only the message and acknowledgement
      tables and the counter can change; a 400 or 404 changes nothing; an
      acknowledgement is recorded for the session's user whether or not the
      message exists. */
  function MessageCommand(t: Tables, session: Session, req: Request, now: int): (r: (Response, Tables))
    requires req.PostMessage? || req.PutMessage? || req.DeleteMessage? || req.PostAcknowledge?
    requires Guard(req, session).Pass?
    ensures r.0.status != 200 ==> r.1 == t
    ensures r.0.status == 400 <==> req.PostMessage? && req.newMessage.None?
    ensures r.0.status == 404 <==> (req.PutMessage? || req.DeleteMessage?) && req.id !in t.importantMessages
    ensures r.1 == t.(importantMessages := r.1.importantMessages, messageAcknowledgements := r.1.messageAcknowledgements,
                      currentId := r.1.currentId)
    ensures req.PostMessage? && r.0.status == 200 ==>
              r.0.body.MessageBody? && r.0.body.importantMessage.id == t.currentId
              && r.0.body.importantMessage.active == req.newMessage.value.active
              && r.1.importantMessages == t.importantMessages[t.currentId := r.0.body.importantMessage]
              && r.1.currentId == t.currentId + 1
    ensures req.PutMessage? && r.0.status == 200 ==>
              r.0.body.MessageBody? && r.0.body.importantMessage.id == t.importantMessages[req.id].id
              && r.0.body.importantMessage.createdAt == t.importantMessages[req.id].createdAt
              && (req.messagePatch.title.Some? ==> r.0.body.importantMessage.title == req.messagePatch.title.value)
              && r.1.importantMessages == t.importantMessages[req.id := r.0.body.importantMessage]
    ensures req.DeleteMessage? ==>
              r.1.importantMessages == t.importantMessages - {req.id} && r.1.messageAcknowledgements == t.messageAcknowledgements
    ensures req.PostAcknowledge? ==>
              r.0.status == 200 && r.0.body.AcknowledgementBody? && r.0.body.acknowledgement.id == t.currentId
              && r.0.body.acknowledgement.messageId == req.id && r.0.body.acknowledgement.userId == session.value.id
              && r.1.messageAcknowledgements == t.messageAcknowledgements[t.currentId := r.0.body.acknowledgement]
              && r.1.currentId == t.currentId + 1
  {
    match req
    case PostMessage(newMessage) =>
      if newMessage.None? then (Response(400, Note("Failed to create message")), t)
      else
        var msg := ImportantMessage(t.currentId, newMessage.value.title, newMessage.value.content, newMessage.value.active, now);
        (Response(200, MessageBody(msg)),
         t.(importantMessages := t.importantMessages[msg.id := msg], currentId := t.currentId + 1))
    case PutMessage(id, patch) =>
      if id !in t.importantMessages then (Response(404, Note("Message not found")), t)
      else
        var msg := MergeMessage(t.importantMessages[id], patch);
        (Response(200, MessageBody(msg)), t.(importantMessages := t.importantMessages[id := msg]))
    case DeleteMessage(id) =>
      if id !in t.importantMessages then (Response(404, Note("Message not found")), t)
      else (Response(200, Note("Message deleted successfully")), t.(importantMessages := t.importantMessages - {id}))
    case PostAcknowledge(messageId) =>
      var ack := MessageAcknowledgement(t.currentId, messageId, session.value.id, now);
      (Response(200, AcknowledgementBody(ack)),
       t.(messageAcknowledgements := t.messageAcknowledgements[ack.id := ack], currentId := t.currentId + 1))
  }

  /** An employee-note or user route past its gate. Only the employee-note and
      user tables and the counter can change; a 400 or 404 changes nothing; a
      new note is the session user's and unresolved; a user is answered
      without its password; a user update keeps the user's id. */
  function PeopleCommand(t: Tables, session: Session, req: Request, now: int): (r: (Response, Tables))
    requires req.PostEmployeeNote? || req.PostResolve? || req.PostUser? || req.PutUser? || req.DeleteUser?
    requires Guard(req, session).Pass?
    ensures r.0.status != 200 ==> r.1 == t
    ensures r.0.status == 400 <==> req.PostUser? && req.newUser.None?
    ensures r.0.status == 404 <==> ((req.PostResolve? && req.id !in t.employeeNotes)
                                    || ((req.PutUser? || req.DeleteUser?) && req.id !in t.users))
    ensures r.1 == t.(employeeNotes := r.1.employeeNotes, users := r.1.users, currentId := r.1.currentId)
    ensures req.PostEmployeeNote? ==>
              r.0.status == 200 && r.0.body.EmployeeNoteBody? && r.0.body.employeeNote.id == t.currentId
              && r.0.body.employeeNote.userId == session.value.id && !r.0.body.employeeNote.resolved
              && r.1.employeeNotes == t.employeeNotes[t.currentId := r.0.body.employeeNote]
              && r.1.currentId == t.currentId + 1
    ensures req.PostResolve? && r.0.status == 200 ==>
              r.0.body.EmployeeNoteBody? && r.0.body.employeeNote.resolved
              && r.0.body.employeeNote.resolvedAt == Some(now)
              && r.0.body.employeeNote.(resolved := t.employeeNotes[req.id].resolved,
                                        resolvedAt := t.employeeNotes[req.id].resolvedAt) == t.employeeNotes[req.id]
              && r.1.employeeNotes == t.employeeNotes[req.id := r.0.body.employeeNote]
    ensures req.PostUser? && r.0.status == 200 ==>
              r.0.body.PublicUserBody? && r.0.body.publicUser.id == t.currentId
              && t.currentId in r.1.users && r.0.body.publicUser == StripPassword(r.1.users[t.currentId])
              && r.1.users[t.currentId].password == req.newUser.value.password
              && r.1.users == t.users[t.currentId := r.1.users[t.currentId]] && r.1.currentId == t.currentId + 1
    ensures req.PutUser? && r.0.status == 200 ==>
              req.id in r.1.users && r.1.users[req.id].id == t.users[req.id].id
              && r.0.body == PublicUserBody(StripPassword(r.1.users[req.id]))
              && r.1.users == t.users[req.id := r.1.users[req.id]]
    ensures req.DeleteUser? ==> r.1.users == t.users - {req.id} && r.1.employeeNotes == t.employeeNotes
  {
    match req
    case PostEmployeeNote(content, _) =>
      var note := EmployeeNote(t.currentId, session.value.id, content, false, None, now);
      (Response(200, EmployeeNoteBody(note)),
       t.(employeeNotes := t.employeeNotes[note.id := note], currentId := t.currentId + 1))
    case PostResolve(id) =>
      if id !in t.employeeNotes then (Response(404, Note("Note not found")), t)
      else
        var note := Resolved(t.employeeNotes[id], now);
        (Response(200, EmployeeNoteBody(note)), t.(employeeNotes := t.employeeNotes[id := note]))
    case PostUser(newUser) =>
      if newUser.None? then (Response(400, Note("Failed to create user")), t)
      else
        var user := User(t.currentId, newUser.value.username, newUser.value.password, newUser.value.email,
                         newUser.value.role, now);
        (Response(200, PublicUserBody(StripPassword(user))),
         t.(users := t.users[user.id := user], currentId := t.currentId + 1))
    case PutUser(id, patch) =>
      if id !in t.users then (Response(404, Note("User not found")), t)
      else
        var user := MergeUser(t.users[id], patch);
        (Response(200, PublicUserBody(StripPassword(user))), t.(users := t.users[id := user]))
    case DeleteUser(id) =>
      if id !in t.users then (Response(404, Note("User not found")), t)
      else (Response(200, Note("User deleted successfully")), t.(users := t.users - {id}))
  }

  /** Any route that changes the store, past its gate: the answer is 200, 400
      or 404, a failure changes nothing, and the counter moves by at most one. */
  function Command(t: Tables, session: Session, req: Request, now: int): (r: (Response, Tables))
    requires IsCommand(req) && Guard(req, session).Pass?
    ensures r.0.status == 200 || r.0.status == 400 || r.0.status == 404
    ensures r.0.status != 200 ==> r.1 == t
    ensures r.1.currentId == t.currentId || r.1.currentId == t.currentId + 1
  {
    if req.PostTask? || req.PutTask? || req.DeleteTask? || req.PostTaskComplete? || req.PostTaskNote? then
      TaskCommand(t, session, req, now)
    else if req.PostMessage? || req.PutMessage? || req.DeleteMessage? || req.PostAcknowledge? then
      MessageCommand(t, session, req, now)
    else
      PeopleCommand(t, session, req, now)
  }

  /** A new task is filed under the counter. */
  lemma PostTaskKeepsConsistent(t: Tables, session: Session, req: Request, now: int)
    requires req.PostTask? && Guard(req, session).Pass?
    ensures Consistent(t) ==> Consistent(TaskCommand(t, session, req, now).1)
  {
    if req.newTask.Some? {
      var task := Task(t.currentId, req.newTask.value.title, req.newTask.value.description,
                       WithUpload(req.newTask.value, req.upload).imageUrl, false, None, None, now);
      assert TaskCommand(t, session, req, now).1 == t.(tasks := t.tasks[task.id := task], currentId := t.currentId + 1);
      if Consistent(t) {
        InsertTaskConsistent(t, task);
      }
    }
  }

  /** An updated task stays under its own id. */
  lemma PutTaskKeepsConsistent(t: Tables, session: Session, req: Request, now: int)
    requires req.PutTask? && Guard(req, session).Pass?
    ensures Consistent(t) ==> Consistent(TaskCommand(t, session, req, now).1)
  {
    if req.id in t.tasks {
      var task := MergeTask(t.tasks[req.id], PatchWithUpload(req.taskPatch, req.upload));
      assert TaskCommand(t, session, req, now).1 == t.(tasks := t.tasks[req.id := task]);
      if Consistent(t) {
        ReplaceTaskConsistent(t, task);
      }
    }
  }

  /** Deleting a task only removes its key. */
  lemma DeleteTaskKeepsConsistent(t: Tables, session: Session, req: Request, now: int)
    requires req.DeleteTask? && Guard(req, session).Pass?
    ensures Consistent(t) ==> Consistent(TaskCommand(t, session, req, now).1)
  {
    if req.id in t.tasks {
      assert TaskCommand(t, session, req, now).1 == t.(tasks := t.tasks - {req.id});
      if Consistent(t) {
        RemoveTaskConsistent(t, req.id);
      }
    }
  }

  /** A completed task stays under its own id. */
  lemma CompleteTaskKeepsConsistent(t: Tables, session: Session, req: Request, now: int)
    requires req.PostTaskComplete? && Guard(req, session).Pass?
    ensures Consistent(t) ==> Consistent(TaskCommand(t, session, req, now).1)
  {
    if req.id in t.tasks {
      var task := Completed(t.tasks[req.id], session.value.id, now);
      assert TaskCommand(t, session, req, now).1 == t.(tasks := t.tasks[req.id := task]);
      if Consistent(t) {
        ReplaceTaskConsistent(t, task);
      }
    }
  }

  /** A new task note is filed under the counter. */
  lemma PostTaskNoteKeepsConsistent(t: Tables, session: Session, req: Request, now: int)
    requires req.PostTaskNote? && Guard(req, session).Pass?
    ensures Consistent(t) ==> Consistent(TaskCommand(t, session, req, now).1)
  {
    var note := TaskNote(t.currentId, req.id, session.value.id, req.notes, now);
    assert TaskCommand(t, session, req, now).1 == t.(taskNotes := t.taskNotes[note.id := note], currentId := t.currentId + 1);
    if Consistent(t) {
      InsertTaskNoteConsistent(t, note);
    }
  }

  /** The task routes keep the store's invariant. */
  lemma TaskCommandKeepsConsistent(t: Tables, session: Session, req: Request, now: int)
    requires Consistent(t)
    requires req.PostTask? || req.PutTask? || req.DeleteTask? || req.PostTaskComplete? || req.PostTaskNote?
    requires Guard(req, session).Pass?
    ensures Consistent(TaskCommand(t, session, req, now).1)
  {
    if req.PostTask? {
      PostTaskKeepsConsistent(t, session, req, now);
    } else if req.PutTask? {
      PutTaskKeepsConsistent(t, session, req, now);
    } else if req.DeleteTask? {
      DeleteTaskKeepsConsistent(t, session, req, now);
    } else if req.PostTaskComplete? {
      CompleteTaskKeepsConsistent(t, session, req, now);
    } else {
      PostTaskNoteKeepsConsistent(t, session, req, now);
    }
  }

  /** A new message is filed under the counter. */
  lemma PostMessageKeepsConsistent(t: Tables, session: Session, req: Request, now: int)
    requires req.PostMessage? && Guard(req, session).Pass?
    ensures Consistent(t) ==> Consistent(MessageCommand(t, session, req, now).1)
  {
    if req.newMessage.Some? {
      var msg := ImportantMessage(t.currentId, req.newMessage.value.title, req.newMessage.value.content,
                                    req.newMessage.value.active, now);
      assert MessageCommand(t, session, req, now).1 == t.(importantMessages := t.importantMessages[msg.id := msg], currentId := t.currentId + 1);
      if Consistent(t) {
        InsertMessageConsistent(t, msg);
      }
    }
  }

  /** An updated message stays under its own id. */
  lemma PutMessageKeepsConsistent(t: Tables, session: Session, req: Request, now: int)
    requires req.PutMessage? && Guard(req, session).Pass?
    ensures Consistent(t) ==> Consistent(MessageCommand(t, session, req, now).1)
  {
    if req.id in t.importantMessages {
      var msg := MergeMessage(t.importantMessages[req.id], req.messagePatch);
      assert MessageCommand(t, session, req, now).1 == t.(importantMessages := t.importantMessages[req.id := msg]);
      if Consistent(t) {
        ReplaceMessageConsistent(t, msg);
      }
    }
  }

  /** Deleting a message only removes its key. */
  lemma DeleteMessageKeepsConsistent(t: Tables, session: Session, req: Request, now: int)
    requires req.DeleteMessage? && Guard(req, session).Pass?
    ensures Consistent(t) ==> Consistent(MessageCommand(t, session, req, now).1)
  {
    if req.id in t.importantMessages {
      assert MessageCommand(t, session, req, now).1 == t.(importantMessages := t.importantMessages - {req.id});
      if Consistent(t) {
        RemoveMessageConsistent(t, req.id);
      }
    }
  }

  /** A new acknowledgement is filed under the counter. */
  lemma AcknowledgeKeepsConsistent(t: Tables, session: Session, req: Request, now: int)
    requires req.PostAcknowledge? && Guard(req, session).Pass?
    ensures Consistent(t) ==> Consistent(MessageCommand(t, session, req, now).1)
  {
    var ack := MessageAcknowledgement(t.currentId, req.id, session.value.id, now);
    assert MessageCommand(t, session, req, now).1 == t.(messageAcknowledgements := t.messageAcknowledgements[ack.id := ack], currentId := t.currentId + 1);
    if Consistent(t) {
      InsertAcknowledgementConsistent(t, ack);
    }
  }

  /** The message routes keep the store's invariant. */
  lemma MessageCommandKeepsConsistent(t: Tables, session: Session, req: Request, now: int)
    requires Consistent(t)
    requires req.PostMessage? || req.PutMessage? || req.DeleteMessage? || req.PostAcknowledge?
    requires Guard(req, session).Pass?
    ensures Consistent(MessageCommand(t, session, req, now).1)
  {
    if req.PostMessage? {
      PostMessageKeepsConsistent(t, session, req, now);
    } else if req.PutMessage? {
      PutMessageKeepsConsistent(t, session, req, now);
    } else if req.DeleteMessage? {
      DeleteMessageKeepsConsistent(t, session, req, now);
    } else {
      AcknowledgeKeepsConsistent(t, session, req, now);
    }
  }

  /** A new employee note is filed under the counter. */
  lemma PostEmployeeNoteKeepsConsistent(t: Tables, session: Session, req: Request, now: int)
    requires req.PostEmployeeNote? && Guard(req, session).Pass?
    ensures Consistent(t) ==> Consistent(PeopleCommand(t, session, req, now).1)
  {
    var note := EmployeeNote(t.currentId, session.value.id, req.content, false, None, now);
    assert PeopleCommand(t, session, req, now).1 == t.(employeeNotes := t.employeeNotes[note.id := note], currentId := t.currentId + 1);
    if Consistent(t) {
      InsertEmployeeNoteConsistent(t, note);
    }
  }

  /** A resolved note stays under its own id. */
  lemma ResolveKeepsConsistent(t: Tables, session: Session, req: Request, now: int)
    requires req.PostResolve? && Guard(req, session).Pass?
    ensures Consistent(t) ==> Consistent(PeopleCommand(t, session, req, now).1)
  {
    if req.id in t.employeeNotes {
      var note := Resolved(t.employeeNotes[req.id], now);
      assert PeopleCommand(t, session, req, now).1 == t.(employeeNotes := t.employeeNotes[req.id := note]);
      if Consistent(t) {
        ReplaceEmployeeNoteConsistent(t, note);
      }
    }
  }

  /** A new user is filed under the counter. */
  lemma PostUserKeepsConsistent(t: Tables, session: Session, req: Request, now: int)
    requires req.PostUser? && Guard(req, session).Pass?
    ensures Consistent(t) ==> Consistent(PeopleCommand(t, session, req, now).1)
  {
    if req.newUser.Some? {
      var user := User(t.currentId, req.newUser.value.username, req.newUser.value.password, req.newUser.value.email,
                       req.newUser.value.role, now);
      assert PeopleCommand(t, session, req, now).1 == t.(users := t.users[user.id := user], currentId := t.currentId + 1);
      if Consistent(t) {
        InsertUserConsistent(t, user);
      }
    }
  }

  /** An updated user stays under its own id, because a typed patch cannot reach it. */
  lemma PutUserKeepsConsistent(t: Tables, session: Session, req: Request, now: int)
    requires req.PutUser? && Guard(req, session).Pass?
    ensures Consistent(t) ==> Consistent(PeopleCommand(t, session, req, now).1)
  {
    if req.id in t.users {
      assert PeopleCommand(t, session, req, now).1 == t.(users := t.users[req.id := MergeUser(t.users[req.id], req.userPatch)]);
      if Consistent(t) {
        MergeUserKeepsConsistent(t, req.id, req.userPatch);
      }
    }
  }

  /** Deleting a user only removes its key. */
  lemma DeleteUserKeepsConsistent(t: Tables, session: Session, req: Request, now: int)
    requires req.DeleteUser? && Guard(req, session).Pass?
    ensures Consistent(t) ==> Consistent(PeopleCommand(t, session, req, now).1)
  {
    if req.id in t.users {
      assert PeopleCommand(t, session, req, now).1 == t.(users := t.users - {req.id});
      if Consistent(t) {
        RemoveUserConsistent(t, req.id);
      }
    }
  }

  /** The employee-note and user routes keep the store's invariant. */
  lemma PeopleCommandKeepsConsistent(t: Tables, session: Session, req: Request, now: int)
    requires Consistent(t)
    requires req.PostEmployeeNote? || req.PostResolve? || req.PostUser? || req.PutUser? || req.DeleteUser?
    requires Guard(req, session).Pass?
    ensures Consistent(PeopleCommand(t, session, req, now).1)
  {
    if req.PostEmployeeNote? {
      PostEmployeeNoteKeepsConsistent(t, session, req, now);
    } else if req.PostResolve? {
      ResolveKeepsConsistent(t, session, req, now);
    } else if req.PostUser? {
      PostUserKeepsConsistent(t, session, req, now);
    } else if req.PutUser? {
      PutUserKeepsConsistent(t, session, req, now);
    } else {
      DeleteUserKeepsConsistent(t, session, req, now);
    }
  }

  /** Every route that changes the store keeps the store's invariant. */
  lemma CommandKeepsConsistent(t: Tables, session: Session, req: Request, now: int)
    requires Consistent(t)
    requires IsCommand(req) && Guard(req, session).Pass?
    ensures Consistent(Command(t, session, req, now).1)
  {
    if req.PostTask? || req.PutTask? || req.DeleteTask? || req.PostTaskComplete? || req.PostTaskNote? {
      TaskCommandKeepsConsistent(t, session, req, now);
    } else if req.PostMessage? || req.PutMessage? || req.DeleteMessage? || req.PostAcknowledge? {
      MessageCommandKeepsConsistent(t, session, req, now);
    } else {
      PeopleCommandKeepsConsistent(t, session, req, now);
    }
  }

  // ---------------------------------------------------------------------------
  // Dispatch
  // ---------------------------------------------------------------------------

  /** One request: the route's gate, then its handler. Only login and logout
      touch the session; a rejected request touches nothing. The routes that
      record who acted take the user id from the session, never from the body. */
  method Serve(store: MemStorage, session: Session, req: Request, now: int) returns (r: Outcome)
    requires store.Valid()
    modifies store
    ensures store.Valid()
    ensures Guard(req, session).Reject? ==> r == Outcome(Rejection(Guard(req, session)), session)
    ensures Guard(req, session).Reject? ==> store.Snapshot() == old(store.Snapshot())
    ensures req.PostLogin? ==> r == old(Login(store, session, req.username, req.password))
    ensures req.PostLogout? ==> r == Outcome(Response(200, Note("Logged out successfully")), None)
    ensures !req.PostLogin? && !req.PostLogout? ==> r.session == session
    ensures IsQuery(req) && Guard(req, session).Pass? ==> r.response == old(Query(store, session, req))
    ensures IsQuery(req) || req.PostLogin? || req.PostLogout? ==> store.Snapshot() == old(store.Snapshot())
    ensures req.GetMessages? && session.Some? ==> r.response == old(ListActiveMessages(store))
    ensures req.GetAllMessages? && IsAdmin(session) ==> r.response == old(ListAllMessages(store))
    ensures IsCommand(req) && Guard(req, session).Pass? ==>
              (r.response, store.Snapshot()) == Command(old(store.Snapshot()), session, req, now)
  {
    var gate := Guard(req, session);
    if gate.Reject? {
      return Outcome(Rejection(gate), session);
    }
    if IsQuery(req) {
      return Outcome(Query(store, session, req), session);
    }
    if req.PostLogin? {
      return Login(store, session, req.username, req.password);
    }
    if req.PostLogout? {
      return Outcome(Response(200, Note("Logged out successfully")), None);
    }
    var resp := ServeCommand(store, session, req, now);
    r := Outcome(resp, session);
  }

  /** The routes that change the store, past their gate. */
  method ServeCommand(store: MemStorage, session: Session, req: Request, now: int) returns (resp: Response)
    requires store.Valid()
    requires IsCommand(req) && Guard(req, session).Pass?
    modifies store
    ensures store.Valid()
    ensures (resp, store.Snapshot()) == Command(old(store.Snapshot()), session, req, now)
  {
    if req.PostTask? || req.PutTask? || req.DeleteTask? || req.PostTaskComplete? || req.PostTaskNote? {
      resp := ServeTaskRoute(store, session, req, now);
    } else if req.PostMessage? || req.PutMessage? || req.DeleteMessage? || req.PostAcknowledge? {
      resp := ServeMessageRoute(store, session, req, now);
    } else {
      resp := ServePeopleRoute(store, session, req, now);
    }
  }

  /** The task routes that change the store, past their gate. */
  method ServeTaskRoute(store: MemStorage, session: Session, req: Request, now: int) returns (resp: Response)
    requires store.Valid()
    requires req.PostTask? || req.PutTask? || req.DeleteTask? || req.PostTaskComplete? || req.PostTaskNote?
    requires Guard(req, session).Pass?
    modifies store
    ensures store.Valid()
    ensures (resp, store.Snapshot()) == TaskCommand(old(store.Snapshot()), session, req, now)
  {
    match req {
      case PostTask(newTask, upload) =>
        resp := HandlePostTask(store, newTask, upload, now);
      case PutTask(id, patch, upload) =>
        resp := HandlePutTask(store, id, patch, upload);
      case DeleteTask(id) =>
        resp := HandleDeleteTask(store, id);
      case PostTaskComplete(id) =>
        resp := HandleCompleteTask(store, session.value, id, now);
      case PostTaskNote(taskId, notes, _) =>
        resp := HandlePostTaskNote(store, session.value, taskId, notes, now);
    }
  }

  /** The message routes that change the store, past their gate. */
  method ServeMessageRoute(store: MemStorage, session: Session, req: Request, now: int) returns (resp: Response)
    requires store.Valid()
    requires req.PostMessage? || req.PutMessage? || req.DeleteMessage? || req.PostAcknowledge?
    requires Guard(req, session).Pass?
    modifies store
    ensures store.Valid()
    ensures (resp, store.Snapshot()) == MessageCommand(old(store.Snapshot()), session, req, now)
  {
    match req {
      case PostMessage(newMessage) =>
        resp := HandlePostMessage(store, newMessage, now);
      case PutMessage(id, patch) =>
        resp := HandlePutMessage(store, id, patch);
      case DeleteMessage(id) =>
        resp := HandleDeleteMessage(store, id);
      case PostAcknowledge(messageId) =>
        resp := HandleAcknowledge(store, session.value, messageId, now);
    }
  }

  /** The employee-note and user routes that change the store, past their gate. */
  method ServePeopleRoute(store: MemStorage, session: Session, req: Request, now: int) returns (resp: Response)
    requires store.Valid()
    requires req.PostEmployeeNote? || req.PostResolve? || req.PostUser? || req.PutUser? || req.DeleteUser?
    requires Guard(req, session).Pass?
    modifies store
    ensures store.Valid()
    ensures (resp, store.Snapshot()) == PeopleCommand(old(store.Snapshot()), session, req, now)
  {
    match req {
      case PostEmployeeNote(content, _) =>
        resp := HandlePostEmployeeNote(store, session.value, content, now);
      case PostResolve(id) =>
        resp := HandleResolve(store, id, now);
      case PostUser(newUser) =>
        resp := HandlePostUser(store, newUser, now);
      case PutUser(id, patch) =>
        resp := HandlePutUser(store, id, patch);
      case DeleteUser(id) =>
        resp := HandleDeleteUser(store, id);
    }
  }

  // ---------------------------------------------------------------------------
  // `PUT /api/users/:id` as written: the body is forwarded unparsed
  // ---------------------------------------------------------------------------

  /** What `PUT /api/users/:id` hands to the store: `req.body` unparsed, so
      besides the patchable fields it may carry any column, `id` included. */
  datatype RawUserBody = RawUserBody(id: Option<int>, fields: UserPatch)

  /** `{ ...user, ...req.body }` with the body as sent: an `id` in the body
      replaces the record's own. */
  function MergeUserAsWritten(u: User, body: RawUserBody): (r: User)
    ensures r.id == body.id.GetOr(u.id)
    ensures r.(id := u.id) == MergeUser(u, body.fields)
  {
    MergeUser(u, body.fields).(id := body.id.GetOr(u.id))
  }

  /** On the seeded store, `PUT /api/users/2` with body `{"id": 1}` files a
      record claiming id 1 under key 2: two users now answer to id 1, and the
      store's invariant no longer holds. */
  lemma UpdateUserAsWrittenBreaksIds(now: int)
    ensures var t := SeedTables(now);
            var t' := t.(users := t.users[2 := MergeUserAsWritten(t.users[2], RawUserBody(Some(1), UserPatch(None, None, None, None)))]);
            !Consistent(t') && t'.users[1].id == t'.users[2].id
  {
    var t := SeedTables(now);
    var t' := t.(users := t.users[2 := MergeUserAsWritten(t.users[2], RawUserBody(Some(1), UserPatch(None, None, None, None)))]);
    assert 2 in t'.users && t'.users[2].id == 1;
  }

  // ---------------------------------------------------------------------------
  // `PUT /api/tasks/:id` as written: the body is forwarded unparsed
  // ---------------------------------------------------------------------------

  /** What `PUT /api/tasks/:id` hands to the store: `req.body` unparsed, so
      besides the patchable fields it may carry the id and the completion
      stamp. */
  datatype RawTaskBody = RawTaskBody(
    id: Option<int>,
    completed: Option<bool>,
    completedBy: Option<Option<int>>,
    completedAt: Option<Option<int>>,
    fields: TaskPatch)

  /** `{ ...task, ...updateData }` with the body as sent: whatever stamp
      fields it carries replace the stored ones. */
  function MergeTaskAsWritten(t: Task, body: RawTaskBody): (r: Task)
    ensures r.id == body.id.GetOr(t.id)
    ensures r.completed == body.completed.GetOr(t.completed)
    ensures r.completedBy == body.completedBy.GetOr(t.completedBy)
    ensures r.completedAt == body.completedAt.GetOr(t.completedAt)
    ensures r.(id := t.id, completed := t.completed, completedBy := t.completedBy, completedAt := t.completedAt)
              == MergeTask(t, body.fields)
  {
    MergeTask(t, body.fields).(id := body.id.GetOr(t.id),
                               completed := body.completed.GetOr(t.completed),
                               completedBy := body.completedBy.GetOr(t.completedBy),
                               completedAt := body.completedAt.GetOr(t.completedAt))
  }

  /** A task completed by user `who` and then sent `{"completed": false}` on
      `PUT /api/tasks/:id` is incomplete again while still naming `who` as its
      completer; the typed patch of `Storage.MergeTask` leaves the stamp alone. */
  lemma UpdateTaskAsWrittenUncompletes(t: Task, who: int, when: int, p: TaskPatch)
    ensures var done := Completed(t, who, when);
            var r := MergeTaskAsWritten(done, RawTaskBody(None, Some(false), None, None, p));
            !r.completed && r.completedBy == Some(who) && r.completedAt == Some(when)
    ensures MergeTask(Completed(t, who, when), p).completed
  {
  }
}
