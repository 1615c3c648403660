/**
 * internal/todo/models.go: the todo list and task records and their
 * request validators. A Go slice that may be nil is an Option of a
 * sequence: None is nil, Some([]) an empty but non-nil slice.
 */
module TodoModels {
  import opened Wrappers

  datatype Task = Task(id: string, todoID: string, content: string, done: bool, order: int) {
    /** Task.Valid */
    predicate Valid() {
      todoID != "" && content != "" && order > 0
    }
  }

  datatype Todo = Todo(id: string, authorID: string, name: string, tasks: Option<seq<Task>>)

  datatype TodoRequest = TodoRequest(authorID: string, name: string, tasks: Option<seq<Task>>) {
    /** TodoRequest.Valid: the tasks slice must be non-nil, its elements are not looked at. */
    predicate Valid() {
      authorID != "" && name != "" && tasks.Some?
    }
  }

  const ZeroTask: Task := Task("", "", "", false, 0)
  const ZeroTodoRequest: TodoRequest := TodoRequest("", "", None)

  /** An empty, non-nil task list is enough. */
  lemma EmptyTaskListIsValid(authorID: string, name: string)
    requires authorID != "" && name != ""
    ensures TodoRequest(authorID, name, Some([])).Valid()
    ensures !TodoRequest(authorID, name, None).Valid()
  {
  }

  /** Validity of a request does not depend on its tasks: one with an Order-0 task is still valid. */
  lemma RequestIgnoresTaskValidity(r: TodoRequest, tasks: seq<Task>)
    requires r.Valid()
    ensures r.(tasks := Some(tasks)).Valid()
    ensures r.(tasks := Some([Task("", r.name, "x", false, 0)])).Valid()
    ensures !Task("", r.name, "x", false, 0).Valid()
  {
  }

  /** Order 0 and negative orders are rejected; positive ones pass once ids and content are set. */
  lemma TaskOrderMustBePositive(t: Task)
    ensures t.order <= 0 ==> !t.Valid()
    ensures t.todoID != "" && t.content != "" ==> (t.Valid() <==> t.order >= 1)
  {
  }

  /** The zero values are invalid. */
  lemma ZeroValuesInvalid()
    ensures !ZeroTask.Valid()
    ensures !ZeroTodoRequest.Valid()
  {
  }
}
