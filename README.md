# Task-tracking server core in Dafny

This project models the core of a small workplace task-tracking web
application and proves properties of it. There are three parts.

- **The in-memory entity store** (`MemStorage`, `storage.dfy`). It keeps six
  tables: users, tasks, task notes, important messages, message
  acknowledgements and employee notes. It also keeps one id counter that all
  six tables share. The store is a Dafny class with one `map<int, _>` field
  per table and a `nat` counter. Every operation that changes the store is a
  method, and it states the store's whole new state through `Snapshot()`.
  The invariant `Consistent` says three things:
  - every record is filed under its own id;
  - every id is below the counter;
  - no id appears in two tables.
- **The request-decision layer** (`routes.dfy`). This covers:
  - the `requireAuth` and `requireAdmin` gates;
  - login, logout and "me";
  - for every API route, how the store's answer becomes a status code and a
    body. The status codes follow section 15 of RFC 9110;
  - removing the password from user responses;
  - taking the acting user's id from the session.

  A session is `Option<Identity>`. `Serve` takes a session, a request and the
  store, and produces a response, the new session and the new store. What
  each store-changing route does is also written as a pure function of the
  tables (`Routes.Command`), and `Serve` is proved to agree with it.
- **The administrator's employee-notes panel** (`notes_admin.dfy`). This
  covers the two-key comparator, the sorted copy of the notes, the lookup of
  a note's author, and which cards offer the "mark resolved" action.

Listing order matters in two places: `getUserByUsername` returns the first
match, and every listing is ordered. A JavaScript `Map` lists its entries in
insertion order. In this store that order is the same as ascending key
order, for three reasons:
- ids only grow;
- updating an entry that exists does not move it;
- deleted ids are never handed out again.

So `Collections.Values` lists a map by ascending key. `Collections.ValuesAppend`
proves that a fresh, larger key lands at the end.

Timestamps (`new Date()`) are an integer `now` that the caller passes in.
Request validation with a schema library is modelled as an `Option`: `None`
means the body was rejected, which gives 400.

The code differs from the table definitions in one place, and the model
follows the code. The database columns give `active` a default of `true` and
`role` a default of `"employee"`. `MemStorage` applies neither default. So a
message created without `active` is stored without it, and it never appears
under `GET /api/messages` (`Schema.ImportantMessage`,
`Storage.MemStorage.CreateImportantMessage`). A user created without a role is
stored without one (`Schema.User`, `Storage.MemStorage.CreateUser`).

## Model

| member | source | states |
|---|---|---|
| Storage.SeedTables | server/storage.ts:59-109 | The seeded state satisfies the invariant. Users 1 (admin, role "admin") and 2 (employee); tasks 3, 4 and 5, none completed; active message 6; no task notes, acknowledgements or employee notes; the counter at 7; ids in use are exactly 1 to 6. |
| Storage.SeedShapeConsistent | server/storage.ts:59-109 | Any tables holding users 1 and 2, tasks 3 to 5 and message 6 under their own ids, with the counter at 7, satisfy the invariant and use exactly ids 1 to 6. |
| Storage.MemStorage.constructor | server/storage.ts:59-109 | Starting from empty tables and the counter at 1, the six creations of the seed (two `CreateUser`, three `CreateTask`, one `CreateImportantMessage`) leave exactly the seeded state, and it is valid. |
| Storage.FreshId | server/storage.ts:57 | In a consistent store the counter is in no table, and every id in use is below it. So the next id handed out is unique across all six tables. |
| Storage.InsertUserConsistent | server/storage.ts:120-129 | Filing a record under the current counter and incrementing the counter keeps the invariant (users table). |
| Storage.InsertTaskConsistent | server/storage.ts:157-169 | The same, for the tasks table. |
| Storage.InsertTaskNoteConsistent | server/storage.ts:203-212 | The same, for the task-notes table. |
| Storage.InsertMessageConsistent | server/storage.ts:232-241 | The same, for the messages table. |
| Storage.InsertAcknowledgementConsistent | server/storage.ts:257-267 | The same, for the acknowledgements table. |
| Storage.InsertEmployeeNoteConsistent | server/storage.ts:286-297 | The same, for the employee-notes table. |
| Storage.MergeUser | server/storage.ts:131-138 | Shallow merge: a supplied field overwrites, an omitted field is kept, and `id` and `createdAt` never change. |
| Storage.MergeTask | server/storage.ts:171-178 | Shallow merge of a task patch. It keeps `id`, `createdAt` and the completion fields. |
| Storage.MergeMessage | server/storage.ts:243-250 | Shallow merge of a message patch. It keeps `id` and `createdAt`. |
| Storage.Completed | server/storage.ts:184-196 | Sets `completed`, `completedBy = userId` and `completedAt = now`. Every other field is as it was. |
| Storage.CompleteOverwrites | server/storage.ts:184-196 | Completing twice equals completing once with the second call's user and time. With different users the second call changes `completedBy`, so the operation is not idempotent. |
| Storage.Resolved | server/storage.ts:299-310 | Sets `resolved` and `resolvedAt = now`. Every other field is as it was. |
| Storage.ReplaceUserConsistent | server/storage.ts:131-138 | Replacing a stored user by a record with the same id keeps the invariant. |
| Storage.ReplaceTaskConsistent | server/storage.ts:171-196 | Replacing a stored task by a record with the same id keeps the invariant. |
| Storage.RemoveTaskConsistent | server/storage.ts:180-182 | Removing a task's key keeps the invariant. |
| Storage.ReplaceMessageConsistent | server/storage.ts:243-250 | Replacing a stored message by a record with the same id keeps the invariant. |
| Storage.RemoveMessageConsistent | server/storage.ts:252-254 | Removing a message's key keeps the invariant. |
| Storage.ReplaceEmployeeNoteConsistent | server/storage.ts:299-310 | Replacing a stored employee note by a record with the same id keeps the invariant. |
| Storage.RemoveUserConsistent | server/storage.ts:140-142 | Removing a user's key keeps the invariant. |
| Storage.MergeUserKeepsConsistent | server/storage.ts:131-138 | A typed patch leaves the user's id as it was, and the updated store stays consistent. |
| Storage.MemStorage.GetUser | server/storage.ts:112-114 | Some exactly when the key is present, with that entry, whose id is the key. |
| Storage.MemStorage.AllUsers | server/storage.ts:144-146 | Exactly the stored users, in strictly increasing id order, which is insertion order. |
| Storage.MemStorage.GetUserByUsername | server/storage.ts:116-118 | None exactly when no user has the name. Otherwise it is the first user with that name in insertion order, since usernames are not unique. |
| Storage.MemStorage.CreateUser | server/storage.ts:120-129 | The new user's id is the old counter, and the counter goes up by one. The id is in no table. The record copies the input and is added to the users table. Nothing else changes. The user is appended to `AllUsers`. |
| Storage.MemStorage.UpdateUser | server/storage.ts:131-138 | A missing id gives None and changes nothing. Otherwise only that entry becomes the merge. |
| Storage.MemStorage.DeleteUser | server/storage.ts:140-142 | Returns whether the key was present. Only that key is removed, with no cascade to notes or acknowledgements. |
| Storage.MemStorage.GetTask | server/storage.ts:153-155 | Some exactly when the key is present, with that entry. |
| Storage.MemStorage.AllTasks | server/storage.ts:149-151 | Exactly the stored tasks, in increasing id order. |
| Storage.MemStorage.CreateTask | server/storage.ts:157-169 | The id comes from the shared counter, which goes up by one. The task has `completed = false` and no completion stamp, and the input is copied. It is appended to `AllTasks`. Nothing else changes. |
| Storage.MemStorage.UpdateTask | server/storage.ts:171-178 | A missing id gives None and changes nothing. Otherwise only that entry becomes the merge. |
| Storage.MemStorage.DeleteTask | server/storage.ts:180-182 | Returns whether the key was present. Only that key is removed, and the task's notes stay. |
| Storage.MemStorage.CompleteTask | server/storage.ts:184-196 | A missing id gives None and changes nothing. Otherwise only that entry changes, and it gets the completion stamp. |
| Storage.MemStorage.GetTaskNotes | server/storage.ts:199-201 | Exactly the stored notes with that `taskId`, each once, in increasing id order. |
| Storage.MemStorage.CreateTaskNote | server/storage.ts:203-212 | The id comes from the shared counter. The input is copied. The note is appended to that task's notes. Nothing else changes. |
| Storage.MemStorage.UpdateTaskNote | server/storage.ts:214-221 | A missing id gives None and changes nothing. Otherwise only `notes` of that entry is replaced. |
| Storage.MemStorage.AllImportantMessages | server/storage.ts:224-226 | Exactly the stored messages, in increasing id order. |
| Storage.MemStorage.ActiveImportantMessages | server/storage.ts:228-230 | Exactly the stored messages whose `active` is true, each once, in increasing id order. |
| Storage.MemStorage.CreateImportantMessage | server/storage.ts:232-241 | The id comes from the shared counter. The input is copied, with `active` as given. The message is appended to all messages, and to the active ones exactly when it is active. |
| Storage.MemStorage.UpdateImportantMessage | server/storage.ts:243-250 | A missing id gives None and changes nothing. Otherwise only that entry becomes the merge. |
| Storage.MemStorage.DeleteImportantMessage | server/storage.ts:252-254 | Returns whether the key was present. Only that key is removed, and its acknowledgements stay. |
| Storage.MemStorage.AcknowledgeMessage | server/storage.ts:257-267 | Always adds a fresh record from the shared counter, with no existence check and no de-duplication. It is appended to both acknowledgement listings. |
| Storage.MemStorage.GetMessageAcknowledgements | server/storage.ts:269-271 | Exactly the acknowledgements of that message, each once, in increasing id order. |
| Storage.MemStorage.GetUserAcknowledgements | server/storage.ts:273-275 | Exactly the acknowledgements by that user, each once, in increasing id order. |
| Storage.MemStorage.AllEmployeeNotes | server/storage.ts:278-280 | Exactly the stored employee notes, in increasing id order. |
| Storage.MemStorage.UnresolvedEmployeeNotes | server/storage.ts:282-284 | Exactly the stored employee notes that are not resolved, each once, in increasing id order. |
| Storage.MemStorage.CreateEmployeeNote | server/storage.ts:286-297 | The id comes from the shared counter. The note has `resolved = false` and no `resolvedAt`. It is appended to all notes and to the unresolved ones. |
| Storage.MemStorage.ResolveEmployeeNote | server/storage.ts:299-310 | A missing id gives None and changes nothing. Otherwise only that entry changes: it is resolved at `now` and leaves the unresolved listing. |
| Collections.SortedKeys | server/storage.ts:144-146 | The keys of a map, each once, with nothing else. |
| Collections.SortedKeysIncreasing | server/storage.ts:144-146 | Those keys are in strictly increasing order. |
| Collections.SortedKeysAppend | server/storage.ts:121 | Adding a key larger than all present puts it last. |
| Collections.ValuesAppend | server/storage.ts:127 | Setting a fresh, larger key appends its value to the listing. This is `Map` insertion order. |
| Collections.ValuesMembership | server/storage.ts:144-146 | A value is listed exactly when some key maps to it. |
| Collections.FilterExact | server/storage.ts:199-201 | The filter keeps exactly the matching elements, with their multiplicities. |
| Collections.FilterOrdered | server/storage.ts:199-201 | A filter keeps the relative order of what it keeps: an ordering between all earlier and later elements survives filtering. |
| Collections.FilterKeepsOrder | server/storage.ts:228-230 | The same, stated for any list: if the list is ordered, so is its filter. |
| Collections.FilterAppend | server/storage.ts:199-201 | Filtering a list with one more element at the end appends that element exactly when it matches. |
| Collections.Find | server/storage.ts:116-118 | None exactly when nothing matches. Otherwise the element at the first matching index. |
| Collections.FindIndex | server/storage.ts:116-118 | The first index whose element matches, or None when none does. |
| Collections.MinExists | server/storage.ts:144-146 | A non-empty set of ids has a least element. |
| Routes.RequireAuth | server/routes.ts:75-80 | Rejects exactly when there is no session, with 401 "Authentication required". |
| Routes.RequireAdmin | server/routes.ts:83-89 | Passes exactly when the session's role is "admin". Otherwise 403 "Admin access required", including when there is no session. |
| Routes.AdminGateImpliesAuthGate | server/routes.ts:75-89 | Passing the admin gate implies passing the authentication gate. Without a session an admin route answers 403, not 401. |
| Routes.Guard | server/routes.ts:92-355 | An open route always passes; a route behind `requireAuth` answers as that gate; a route behind `requireAdmin` answers as that gate. |
| Routes.RouteTable | server/routes.ts:43-355 | Without a session only login, logout and "me" pass. A logged-in non-admin passes exactly those plus the task list, completing a task, reading and adding task notes, the active messages, acknowledging and filing an employee note. An admin passes every route. A visitor without a session gets 401 exactly from those employee routes and 403 from the rest; a non-admin gets 403. |
| Routes.StripPassword | server/routes.ts:311-315 | Every user field but the password is kept. |
| Routes.StripPasswordLosesOnlyPassword | server/routes.ts:311-315 | Two users strip to the same public user exactly when they differ at most in the password. |
| Routes.IdentityOf | server/routes.ts:53 | The session identity is the user's id, username and role. |
| Routes.Login | server/routes.ts:43-58 | 200 exactly when the first user with that username has exactly the supplied password. Then the session and the body are that user's `{id, username, role}`. Otherwise 401 "Invalid credentials" and the session unchanged, whether the user is unknown or the password wrong. |
| Routes.FirstNamedUnique | server/storage.ts:116-118 | The first user with a given name sits at one index only. |
| Routes.SeedAdminLogsIn | server/routes.ts:43-58 | On the seeded store the seeded admin credentials log in as user 1 with role "admin". |
| Routes.Me | server/routes.ts:66-72 | 401 "Not authenticated" without a session. Otherwise 200 with the session identity. |
| Routes.ListTasks | server/routes.ts:92-99 | 200 with exactly `AllTasks()`: every stored task, each once, in increasing id order. |
| Routes.ListTaskNotes | server/routes.ts:159-167 | 200 with exactly `GetTaskNotes(id)`: the notes of that task, each once, in increasing id order. |
| Routes.ListActiveMessages | server/routes.ts:187-194 | 200 with exactly `ActiveImportantMessages()`: the active messages, each once, in increasing id order. |
| Routes.ListAllMessages | server/routes.ts:196-203 | 200 with exactly `AllImportantMessages()`: every message, inactive ones included, each once, in increasing id order. |
| Routes.ListAcknowledgements | server/routes.ts:253-261 | 200 with exactly `GetMessageAcknowledgements(id)`: that message's acknowledgements, each once, in increasing id order. |
| Routes.ListEmployeeNotes | server/routes.ts:264-271 | 200 with exactly `AllEmployeeNotes()`: every employee note, each once, in increasing id order. |
| Routes.ListUnresolvedNotes | server/routes.ts:273-280 | 200 with exactly `UnresolvedEmployeeNotes()`: the unresolved notes, each once, in increasing id order. |
| Routes.ListUsers | server/routes.ts:307-319 | 200 with one entry per stored user in store order, each without its password. |
| Routes.Query | server/routes.ts:66-319 | A read-only route past its gate answers 200, except "me" without a session. Each route's body equals the matching store getter, so it lists each record once in increasing id order: all tasks; that task's notes; only the active messages on `/api/messages` and every message on `/api/messages/all`; that message's acknowledgements; all or only unresolved employee notes; every user without its password, in store order. |
| Routes.UploadUrl | server/routes.ts:105 | The URL is "/uploads/" followed by the stored file name. |
| Routes.WithUpload | server/routes.ts:104-106 | An uploaded image replaces the body's `imageUrl`. The other fields are untouched. |
| Routes.PatchWithUpload | server/routes.ts:118-120 | An uploaded image replaces the patch's `imageUrl`. The other fields are untouched. |
| Routes.HandlePostTask | server/routes.ts:101-112 | An invalid body gives 400 "Failed to create task" and leaves the store unchanged. Otherwise 200 with the new task, whose id is the old counter and which has the upload as its image. |
| Routes.HandlePutTask | server/routes.ts:114-129 | A missing task gives 404 "Task not found" and leaves the store unchanged. Otherwise 200 with the merged task, with the upload applied. |
| Routes.HandleDeleteTask | server/routes.ts:131-142 | 404 "Task not found" exactly when the key was absent. Otherwise 200 "Task deleted successfully". |
| Routes.HandleCompleteTask | server/routes.ts:144-156 | A missing task gives 404. Otherwise the task is completed by the acting user. |
| Routes.HandlePostTaskNote | server/routes.ts:169-184 | 200 with a new note whose `userId` is the acting user's id. The task is not looked up. |
| Routes.HandlePostMessage | server/routes.ts:205-213 | An invalid body gives 400 "Failed to create message". Otherwise 200 with the new message. |
| Routes.HandlePutMessage | server/routes.ts:215-226 | A missing message gives 404 "Message not found". Otherwise 200 with the merged message. |
| Routes.HandleDeleteMessage | server/routes.ts:228-239 | 404 "Message not found" exactly when the key was absent. Otherwise 200 "Message deleted successfully". |
| Routes.HandleAcknowledge | server/routes.ts:242-251 | 200 with a new acknowledgement by the acting user, whether or not the message exists. |
| Routes.HandlePostEmployeeNote | server/routes.ts:282-291 | 200 with a new unresolved note by the acting user. |
| Routes.HandleResolve | server/routes.ts:293-304 | A missing note gives 404 "Note not found". Otherwise 200 with the resolved note. |
| Routes.HandlePostUser | server/routes.ts:321-329 | An invalid body gives 400 "Failed to create user". Otherwise 200 with the new user without its password. |
| Routes.HandlePutUser | server/routes.ts:331-342 | A missing user gives 404 "User not found". Otherwise 200 with the merged user without its password. |
| Routes.HandleDeleteUser | server/routes.ts:344-355 | 404 "User not found" exactly when the key was absent. Otherwise 200 "User deleted successfully". |
| Routes.TaskCommand | server/routes.ts:101-184 | Only the task and task-note tables and the counter can change. A 400 (rejected body) or 404 (missing task on update, delete or complete) changes nothing. A new task gets the counter id and is not completed. An update keeps the task's id, creation time and whole completion stamp (`completed`, `completedBy`, `completedAt`) and takes a supplied title. A completion stamps the session's user and `now` and changes no other field. A delete removes only that task, not its notes. A new note carries the session's user id. |
| Routes.MessageCommand | server/routes.ts:205-251 | Only the message and acknowledgement tables and the counter can change. A 400 or 404 changes nothing. A new message gets the counter id and keeps `active` as given. An update keeps the message's id and creation time and takes a supplied title. A delete leaves the acknowledgements. An acknowledgement is recorded for the session's user whether or not the message exists. |
| Routes.PeopleCommand | server/routes.ts:282-355 | Only the employee-note and user tables and the counter can change. A 400 or 404 changes nothing. A new employee note is the session user's and unresolved. Resolving stamps `resolvedAt = now` and changes no other field. A new or updated user is answered without its password, and an update keeps the user's id. A delete leaves the user's notes. |
| Routes.Command | server/routes.ts:101-355 | A store-changing route answers 200, 400 or 404; any failure changes nothing; the counter moves by at most one. |
| Routes.PostTaskKeepsConsistent | server/routes.ts:101-112 | Creating a task keeps the store invariant. |
| Routes.PutTaskKeepsConsistent | server/routes.ts:114-129 | Updating a task keeps the store invariant. |
| Routes.DeleteTaskKeepsConsistent | server/routes.ts:131-142 | Deleting a task keeps the store invariant. |
| Routes.CompleteTaskKeepsConsistent | server/routes.ts:144-156 | Completing a task keeps the store invariant. |
| Routes.PostTaskNoteKeepsConsistent | server/routes.ts:169-184 | Adding a task note keeps the store invariant. |
| Routes.TaskCommandKeepsConsistent | server/routes.ts:101-184 | Every task route keeps the store invariant. |
| Routes.PostMessageKeepsConsistent | server/routes.ts:205-213 | Creating a message keeps the store invariant. |
| Routes.PutMessageKeepsConsistent | server/routes.ts:215-226 | Updating a message keeps the store invariant. |
| Routes.DeleteMessageKeepsConsistent | server/routes.ts:228-239 | Deleting a message keeps the store invariant. |
| Routes.AcknowledgeKeepsConsistent | server/routes.ts:242-251 | Acknowledging a message keeps the store invariant. |
| Routes.MessageCommandKeepsConsistent | server/routes.ts:205-251 | Every message route keeps the store invariant. |
| Routes.PostEmployeeNoteKeepsConsistent | server/routes.ts:282-291 | Filing an employee note keeps the store invariant. |
| Routes.ResolveKeepsConsistent | server/routes.ts:293-304 | Resolving a note keeps the store invariant. |
| Routes.PostUserKeepsConsistent | server/routes.ts:321-329 | Creating a user keeps the store invariant. |
| Routes.PutUserKeepsConsistent | server/routes.ts:331-342 | Updating a user with a typed patch keeps the store invariant. |
| Routes.DeleteUserKeepsConsistent | server/routes.ts:344-355 | Deleting a user keeps the store invariant. |
| Routes.PeopleCommandKeepsConsistent | server/routes.ts:282-355 | Every employee-note and user route keeps the store invariant. |
| Routes.CommandKeepsConsistent | server/routes.ts:101-355 | Every store-changing route keeps the store invariant. |
| Routes.Serve | server/routes.ts:43-355 | A rejected request touches neither the session nor the store. Login answers as `Login`, and logout clears the session. Read-only routes answer as `Query` and change nothing; `/api/messages` answers with the active messages and `/api/messages/all` with all of them. Every store-changing route past its gate gives exactly the response and the new tables of `Command` on the old tables. |
| Routes.ServeCommand | server/routes.ts:101-355 | The response and the new tables are exactly those of `Command` on the old tables. |
| Routes.ServeTaskRoute | server/routes.ts:101-184 | The response and the new tables are exactly those of `TaskCommand` on the old tables. |
| Routes.ServeMessageRoute | server/routes.ts:205-251 | The response and the new tables are exactly those of `MessageCommand` on the old tables. |
| Routes.ServePeopleRoute | server/routes.ts:282-355 | The response and the new tables are exactly those of `PeopleCommand` on the old tables. |
| Routes.MergeUserAsWritten | server/routes.ts:331-342 | The update as the route performs it: an `id` in the raw body replaces the record's own. |
| Routes.UpdateUserAsWrittenBreaksIds | server/routes.ts:334 | On the seeded store a body `{"id": 1}` sent to user 2 leaves two users with id 1 and breaks the store invariant. |
| Routes.MergeTaskAsWritten | server/routes.ts:114-129 | The update as the route performs it: `id`, `completed`, `completedBy` and `completedAt` in the raw body replace the stored ones; the rest is the typed merge. |
| Routes.UpdateTaskAsWrittenUncompletes | server/routes.ts:117-121 | A completed task sent `{"completed": false}` becomes incomplete while still naming its completer; the typed merge keeps it completed. |
| EmployeeNotesAdmin.Compare | client/src/components/employee-notes-admin.tsx:48-54 | With different statuses, negative exactly when `a` is unresolved. With equal statuses, `a` may go first exactly when it is not older. |
| EmployeeNotesAdmin.CompareConsistent | client/src/components/employee-notes-admin.tsx:48-54 | The comparator is antisymmetric in sign, and "may stand before" is total and transitive, so `sort` is well defined. |
| EmployeeNotesAdmin.SortedCons | client/src/components/employee-notes-admin.tsx:48-54 | A note that may stand before every note of a sorted list can be put in front of it, and the list stays sorted. |
| EmployeeNotesAdmin.HeadBeforeAll | client/src/components/employee-notes-admin.tsx:48-54 | The first note of a sorted list may stand before every note that remains after inserting a later note. |
| EmployeeNotesAdmin.Insert | client/src/components/employee-notes-admin.tsx:48-54 | Inserting into a sorted list gives a sorted list with exactly one more element. |
| EmployeeNotesAdmin.SortNotes | client/src/components/employee-notes-admin.tsx:48-54 | The result is a permutation of the fetched notes, sorted by the comparator. It is a new list, and the input stays as it was. |
| EmployeeNotesAdmin.SortedNotesOrder | client/src/components/employee-notes-admin.tsx:48-54 | Same length and the same notes. Every unresolved note comes before every resolved one. Within one status, `createdAt` does not increase. |
| EmployeeNotesAdmin.GetUserById | client/src/components/employee-notes-admin.tsx:36-38 | None exactly when no user has that id. Otherwise the first user with it. |
| EmployeeNotesAdmin.AuthorName | client/src/components/employee-notes-admin.tsx:80 | "Unknown User" for a missing author or an empty username. Otherwise the username. |
| EmployeeNotesAdmin.Card | client/src/components/employee-notes-admin.tsx:68-101 | The resolve action is offered exactly for an unresolved note, and it targets that note's id. The badge is "RESOLVED" or "NEW". |
| EmployeeNotesAdmin.Render | client/src/components/employee-notes-admin.tsx:56-116 | The empty state appears exactly when there are no notes. Otherwise there is one card per note in sorted order, and only unresolved cards offer the resolve action. |

## Left out

- Multer upload handling is not modelled: the disk storage, the 5 MB limit, the image-only filter and the random file names. An accepted upload is an optional stored file name. Rejected files never reach the handlers modelled here.
- Serving `/uploads` statically, creating the uploads directory and creating the HTTP server are file-system and framework plumbing.
- Session storage and `req.session.destroy` are not modelled. The session is a value that `Serve` returns. The logout callback is taken to run.
- Every `catch` branch (500 "… failed", 400 "Failed to update …") is left out. The in-memory store never throws, so these branches cannot be reached with it.
- `parseInt` of a non-numeric path segment gives `NaN`. The model's ids are integers. A `NaN` id misses every table, so the route answers 404 (or, for notes and acknowledgements, files a record with that `NaN` id); this is not modelled.
- Request-body fields that are absent (for example a missing `notes` or `content`, stored as `undefined`) are not modelled. Bodies are typed.
- Schema validation is abstracted to an `Option`: `None` means the body was rejected. The schema library's rules are not modelled.
- `Date` objects are not modelled. Every timestamp is an integer clock reading passed in. The constructor uses one reading for all six seed records.
- Concurrency is not modelled. Each request runs to completion before the next, and the non-atomic `currentId++` under concurrent requests is out of scope.
- Passwords are stored and compared as plain strings, as in the source.
- EmployeeNotesAdmin.SortNotes: the order among notes with the same status and the same `createdAt` is not stated. The model is a stable insertion sort, as the engine's `sort` is, but no lemma states stability.
- The React components other than the notes panel are not part of this model, and neither is the panel's loading state, query caching, toasts or date formatting.
- Routes.HandlePutTask: merges only the patchable fields (title, description, image). The raw body the route forwards can also set `id`, `createdAt` and the completion stamp; that behaviour is modelled separately by `Routes.MergeTaskAsWritten` (see Findings).
- Routes.HandlePutUser: merges only the patchable fields (username, password, email, role). The raw body the route forwards can also overwrite `id` and `createdAt`; that behaviour is modelled separately by `Routes.MergeUserAsWritten` (see Findings).
- Routes.HandlePutMessage: merges only the patchable fields (title, content, `active`). The raw body the route forwards can also overwrite `id` and `createdAt`, as for users and tasks (see Findings); that case is not modelled for messages.
- `getUser`, `getTask` and `updateTaskNote` have no route. They are modelled on the store only.

## Findings

| source | as written | input that shows it | evidently intended | confidence | as-written member | corrected member |
|---|---|---|---|---|---|---|
| server/routes.ts:334 | `PUT /api/users/:id` passes the unparsed request body to `updateUser`, and the body is spread over the stored record. So a body carrying `id` (or `createdAt`) overwrites it. The task and message update routes (lines 117-121, 218) do the same. | `PUT /api/users/2` with body `{"id": 1}` on the seeded store: key 2 now holds a record with id 1, so two users answer to id 1. | Only the patchable fields of the insert schema (which omits `id` and `createdAt`) are merged, so each record keeps its own id. | medium, not executed | Routes.UpdateUserAsWrittenBreaksIds | Storage.MergeUserKeepsConsistent |
| server/routes.ts:117-121 | `PUT /api/tasks/:id` passes `req.body` unparsed to `updateTask`, which spreads it over the stored task. So the body can set `completed`, `completedBy` and `completedAt`, which only the complete route is meant to set. | A task completed by user 2, then `PUT /api/tasks/:id` with body `{"completed": false}`: the task is incomplete again but still names user 2 as its completer. | Only the patchable fields of the insert schema (title, description, image) are merged; completion changes only through the complete route, and never back. | medium, not executed | Routes.UpdateTaskAsWrittenUncompletes | Storage.MergeTask |
