/** The six record kinds of the store and the shapes clients send to create and
    to update them. A `Date` is an integer clock reading; a column that may be
    absent or null is an `Option`. In an update patch every field is optional:
    `None` means the field was omitted, `Some(x)` that it was supplied as `x`
    (which, for a nullable column, may itself be `None`, i.e. `null`). */
module Schema {
  import opened Wrappers

  /** `role` is free text in the source; only the value "admin" is special. */
  datatype User = User(
    id: int,
    username: string,
    password: string,
    email: Option<string>,
    role: Option<string>,
    createdAt: int)

  datatype NewUser = NewUser(
    username: string,
    password: string,
    email: Option<string>,
    role: Option<string>)

  datatype UserPatch = UserPatch(
    username: Option<string>,
    password: Option<string>,
    email: Option<Option<string>>,
    role: Option<Option<string>>)

  datatype Task = Task(
    id: int,
    title: string,
    description: Option<string>,
    imageUrl: Option<string>,
    completed: bool,
    completedBy: Option<int>,
    completedAt: Option<int>,
    createdAt: int)

  datatype NewTask = NewTask(
    title: string,
    description: Option<string>,
    imageUrl: Option<string>)

  datatype TaskPatch = TaskPatch(
    title: Option<string>,
    description: Option<Option<string>>,
    imageUrl: Option<Option<string>>)

  datatype TaskNote = TaskNote(
    id: int,
    taskId: int,
    userId: int,
    notes: string,
    createdAt: int)

  datatype NewTaskNote = NewTaskNote(taskId: int, userId: int, notes: string)

  /** `active` is optional on creation and nothing fills it in, so a message can
      lack it; a missing `active` is falsy wherever it is tested. */
  datatype ImportantMessage = ImportantMessage(
    id: int,
    title: string,
    content: string,
    active: Option<bool>,
    createdAt: int)

  datatype NewMessage = NewMessage(title: string, content: string, active: Option<bool>)

  datatype MessagePatch = MessagePatch(
    title: Option<string>,
    content: Option<string>,
    active: Option<Option<bool>>)

  datatype MessageAcknowledgement = MessageAcknowledgement(
    id: int,
    messageId: int,
    userId: int,
    acknowledgedAt: int)

  datatype EmployeeNote = EmployeeNote(
    id: int,
    userId: int,
    content: string,
    resolved: bool,
    resolvedAt: Option<int>,
    createdAt: int)

  datatype NewEmployeeNote = NewEmployeeNote(userId: int, content: string)

  /** JavaScript truthiness of a message's `active` field. */
  predicate IsActive(m: ImportantMessage) {
    m.active == Some(true)
  }

  /** A value supplied in a patch wins over the stored one. */
  function Pick<T>(supplied: Option<T>, stored: T): T {
    supplied.GetOr(stored)
  }
}
