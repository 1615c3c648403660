/**
 * The todo store behind the handlers of internal/todo/routes.go, as
 * internal/todo/repository.go uses it: a todo table keyed by id, a task
 * table of rows, and the set of operations whose database call fails.
 *
 * The SQL text is not modelled; each repository method is the effect its
 * statements have on the two tables (the column order of the statements
 * is the subject of SqlColumns).
 */
module TodoRepository {
  import opened Wrappers
  import opened WebError
  import opened TodoModels

  /** One row of the todo table. */
  datatype TodoRow = TodoRow(authorID: string, name: string)

  /** The repository methods, to say which of them the database refuses. */
  datatype RepoOp = CreateOp | GetOp | UpdateOp | DeleteOp | CreateTaskOp | GetTasksOp | UpdateTaskOp | DeleteTaskOp

  /** What GetByID answers; NotFound is errNotFound, which GetByID itself never returns unwrapped. */
  datatype Lookup = Found(todo: Todo) | NotFound | LookupFailed(cause: Cause)

  const ZeroTodo: Todo := Todo("", "", "", None)

  /** The rows of `rows` that belong to the todo `todoID`, in table order. */
  function TasksOf(rows: seq<Task>, todoID: string): (r: seq<Task>)
    ensures |r| <= |rows|
    ensures forall t :: t in r ==> t.todoID == todoID && t in rows
    ensures forall j :: 0 <= j < |rows| && rows[j].todoID == todoID ==> rows[j] in r
  {
    if rows == [] then []
    else
      var last := rows[|rows| - 1];
      TasksOf(rows[..|rows| - 1], todoID) + (if last.todoID == todoID then [last] else [])
  }

  /** The request's tasks as Create inserts them: each one under the new todo's id. */
  function Adopted(tasks: seq<Task>, todoID: string): (r: seq<Task>)
    ensures |r| == |tasks|
    ensures forall j :: 0 <= j < |tasks| ==> r[j] == tasks[j].(todoID := todoID)
  {
    if tasks == [] then []
    else Adopted(tasks[..|tasks| - 1], todoID) + [tasks[|tasks| - 1].(todoID := todoID)]
  }

  /** UPDATE task SET content, done WHERE id: every row with the update's id. */
  function UpdatedTasks(rows: seq<Task>, update: Task): (r: seq<Task>)
    ensures |r| == |rows|
    ensures forall j :: 0 <= j < |rows| ==>
              r[j] == if rows[j].id == update.id then rows[j].(content := update.content, done := update.done) else rows[j]
  {
    seq(|rows|, j requires 0 <= j < |rows| =>
      if rows[j].id == update.id then rows[j].(content := update.content, done := update.done) else rows[j])
  }

  /** DELETE FROM task WHERE id: the rows with another id, in order. */
  function WithoutTask(rows: seq<Task>, id: string): (r: seq<Task>)
    ensures |r| <= |rows|
    ensures forall t :: t in r <==> t in rows && t.id != id
  {
    if rows == [] then []
    else
      var last := rows[|rows| - 1];
      WithoutTask(rows[..|rows| - 1], id) + (if last.id != id then [last] else [])
  }

  /** Update: the name is only written when the request has one; a missing id changes nothing. */
  function UpdatedTodos(todos: map<string, TodoRow>, id: string, update: TodoRequest): (r: map<string, TodoRow>)
    ensures r.Keys == todos.Keys
    ensures forall k :: k in r ==> r[k].authorID == todos[k].authorID
    ensures forall k :: k in r && k != id ==> r[k] == todos[k]
    ensures update.name != "" && id in todos ==> r[id].name == update.name
    ensures update.name == "" ==> r == todos
  {
    if update.name != "" && id in todos then todos[id := todos[id].(name := update.name)] else todos
  }

  /** The error Update returns: none when there is no name to write. */
  function UpdateError(faults: set<RepoOp>, update: TodoRequest): (err: Cause)
    ensures err != NoCause <==> update.name != "" && UpdateOp in faults
  {
    if update.name != "" && UpdateOp in faults then Cause("todo_repo update todo") else NoCause
  }

  /** Whether Create stores a new todo: the database works, nanoid gave an id, and it is new. */
  predicate Stores(todos: map<string, TodoRow>, faults: set<RepoOp>, freshID: Option<string>) {
    CreateOp !in faults && freshID.Some? && freshID.value !in todos
  }

  /**
   * What Create returns. A nanoid failure returns (Todo{}, nil): no error,
   * though nothing was stored.
   */
  function CreateAttempt(todos: map<string, TodoRow>, faults: set<RepoOp>, data: TodoRequest, freshID: Option<string>): (r: (Todo, Cause))
    ensures Stores(todos, faults, freshID) ==> r == (Todo(freshID.value, data.authorID, data.name, data.tasks), NoCause)
    ensures !Stores(todos, faults, freshID) ==> r.0 == ZeroTodo
    ensures r.1 == NoCause <==> CreateOp !in faults && (freshID.None? || freshID.value !in todos)
  {
    if CreateOp in faults then (ZeroTodo, Cause("todo_repo acquire conn"))
    else
      match freshID
      case None => (ZeroTodo, NoCause)
      case Some(id) =>
        if id in todos then (ZeroTodo, Cause("todo_repo insert todo"))
        else (Todo(id, data.authorID, data.name, data.tasks), NoCause)
  }

  class Repository {
    var todos: map<string, TodoRow>
    var taskRows: seq<Task>
    var faults: set<RepoOp>

    /** Every stored todo, as the handlers store them, has an author and a name. */
    predicate Valid()
      reads this
    {
      forall k :: k in todos ==> todos[k].authorID != "" && todos[k].name != ""
    }

    constructor (faults: set<RepoOp>)
      ensures todos == map[] && taskRows == [] && this.faults == faults
      ensures Valid()
    {
      todos := map[];
      taskRows := [];
      this.faults := faults;
    }

    /**
     * What GetByID answers for `id`. A missing row is pgx.ErrNoRows wrapped
     * by fmt.Errorf, so it is an ordinary failure and never errNotFound.
     */
    function Lookup(id: string): (l: Lookup)
      reads this
      ensures l.Found? <==> GetOp !in faults && id in todos
      ensures l.Found? ==> l.todo == Todo(id, todos[id].authorID, todos[id].name, Some(TasksOf(taskRows, id)))
      ensures !l.NotFound?
    {
      if GetOp in faults then LookupFailed(Cause("todo_repo get todo"))
      else if id !in todos then LookupFailed(Cause("todo_repo get todo: no rows in result set"))
      else Found(Todo(id, todos[id].authorID, todos[id].name, Some(TasksOf(taskRows, id))))
    }

    /** The loop over the selected task rows. */
    method CollectTasks(todoID: string) returns (ts: seq<Task>)
      ensures ts == TasksOf(taskRows, todoID)
    {
      ts := [];
      var i := 0;
      while i < |taskRows|
        invariant 0 <= i <= |taskRows|
        invariant ts == TasksOf(taskRows[..i], todoID)
      {
        assert taskRows[..i + 1][..i] == taskRows[..i];
        if taskRows[i].todoID == todoID {
          ts := ts + [taskRows[i]];
        }
        i := i + 1;
      }
      assert taskRows[..i] == taskRows;
    }

    /** GetByID: the todo row, then its tasks. */
    method GetByID(id: string) returns (l: Lookup)
      ensures l == Lookup(id)
    {
      if GetOp in faults {
        return LookupFailed(Cause("todo_repo get todo"));
      }
      if id !in todos {
        return LookupFailed(Cause("todo_repo get todo: no rows in result set"));
      }
      var row := todos[id];
      var tasks := CollectTasks(id);
      l := Found(Todo(id, row.authorID, row.name, Some(tasks)));
    }

    /** GetTasks: None stands for a failed query. */
    method GetTasks(todoID: string) returns (ts: Option<seq<Task>>)
      ensures GetTasksOp in faults ==> ts.None?
      ensures GetTasksOp !in faults ==> ts == Some(TasksOf(taskRows, todoID))
    {
      if GetTasksOp in faults {
        return None;
      }
      var rows := CollectTasks(todoID);
      ts := Some(rows);
    }

    /**
     * Create: one transaction inserting the todo row and then, in a loop,
     * each task under the new id; any failure rolls all of it back.
     */
    method Create(data: TodoRequest, freshID: Option<string>) returns (t: Todo, err: Cause)
      modifies this
      ensures (t, err) == CreateAttempt(old(todos), faults, data, freshID)
      ensures faults == old(faults)
      ensures Stores(old(todos), faults, freshID) ==>
                todos == old(todos)[freshID.value := TodoRow(data.authorID, data.name)]
                && taskRows == old(taskRows) + Adopted(data.tasks.GetOr([]), freshID.value)
      ensures !Stores(old(todos), faults, freshID) ==> todos == old(todos) && taskRows == old(taskRows)
    {
      if CreateOp in faults {
        return ZeroTodo, Cause("todo_repo acquire conn");
      }
      if freshID.None? {
        return ZeroTodo, NoCause;
      }
      var id := freshID.value;
      if id in todos {
        return ZeroTodo, Cause("todo_repo insert todo");
      }
      var tasks := data.tasks.GetOr([]);
      var rows := taskRows;
      var i := 0;
      while i < |tasks|
        invariant 0 <= i <= |tasks|
        invariant rows == taskRows + Adopted(tasks[..i], id)
      {
        assert tasks[..i + 1][..i] == tasks[..i];
        rows := rows + [tasks[i].(todoID := id)];
        i := i + 1;
      }
      assert tasks[..i] == tasks;
      todos := todos[id := TodoRow(data.authorID, data.name)];
      taskRows := rows;
      t, err := Todo(id, data.authorID, data.name, data.tasks), NoCause;
    }

    /** Update: renames the todo when the request carries a name. */
    method Update(id: string, update: TodoRequest) returns (err: Cause)
      modifies this
      ensures err == UpdateError(faults, update)
      ensures faults == old(faults) && taskRows == old(taskRows)
      ensures todos == if err == NoCause then UpdatedTodos(old(todos), id, update) else old(todos)
    {
      if update.name != "" {
        if UpdateOp in faults {
          return Cause("todo_repo update todo");
        }
        todos := UpdatedTodos(todos, id, update);
      }
      err := NoCause;
    }

    /** DeleteTodo: removes the todo row (its task rows stay). */
    method DeleteTodo(id: string) returns (err: Cause)
      modifies this
      ensures faults == old(faults) && taskRows == old(taskRows)
      ensures DeleteOp in faults ==> err.Cause? && todos == old(todos)
      ensures DeleteOp !in faults ==> err == NoCause && todos == old(todos) - {id}
    {
      if DeleteOp in faults {
        return Cause("todo_repo delete todo");
      }
      todos := todos - {id};
      err := NoCause;
    }

    /** CreateTask: a fresh nanoid (None: it failed), then the insert. */
    method CreateTask(task: Task, freshID: Option<string>) returns (err: Cause)
      modifies this
      ensures faults == old(faults) && todos == old(todos)
      ensures err == NoCause <==> freshID.Some? && CreateTaskOp !in faults
      ensures err == NoCause ==> taskRows == old(taskRows) + [task.(id := freshID.value)]
      ensures err != NoCause ==> taskRows == old(taskRows)
    {
      if freshID.None? {
        return Cause("todo_repo generating id");
      }
      if CreateTaskOp in faults {
        return Cause("todo_repo insert task");
      }
      taskRows := taskRows + [task.(id := freshID.value)];
      err := NoCause;
    }

    method UpdateTask(update: Task) returns (err: Cause)
      modifies this
      ensures faults == old(faults) && todos == old(todos)
      ensures UpdateTaskOp in faults ==> err.Cause? && taskRows == old(taskRows)
      ensures UpdateTaskOp !in faults ==> err == NoCause && taskRows == UpdatedTasks(old(taskRows), update)
    {
      if UpdateTaskOp in faults {
        return Cause("todo_repo update task");
      }
      taskRows := UpdatedTasks(taskRows, update);
      err := NoCause;
    }

    method DeleteTask(id: string) returns (err: Cause)
      modifies this
      ensures faults == old(faults) && todos == old(todos)
      ensures DeleteTaskOp in faults ==> err.Cause? && taskRows == old(taskRows)
      ensures DeleteTaskOp !in faults ==> err == NoCause && taskRows == WithoutTask(old(taskRows), id)
    {
      if DeleteTaskOp in faults {
        return Cause("todo_repository delete task");
      }
      taskRows := WithoutTask(taskRows, id);
      err := NoCause;
    }
  }

  /** The tasks read back right after Create are exactly the request's tasks, re-keyed to the new todo. */
  lemma CreatedTodoReadsBack(rows: seq<Task>, data: TodoRequest, id: string)
    requires forall j :: 0 <= j < |rows| ==> rows[j].todoID != id
    ensures TasksOf(rows + Adopted(data.tasks.GetOr([]), id), id) == Adopted(data.tasks.GetOr([]), id)
  {
    var mine := Adopted(data.tasks.GetOr([]), id);
    forall j | 0 <= j < |mine|
      ensures mine[j].todoID == id
    {
    }
    TasksOfAppendForeign(rows, mine, id);
  }

  /** TasksOf ignores rows of other todos and keeps all rows of this one. */
  lemma {:induction false} TasksOfAppendForeign(rows: seq<Task>, mine: seq<Task>, id: string)
    requires forall j :: 0 <= j < |rows| ==> rows[j].todoID != id
    requires forall j :: 0 <= j < |mine| ==> mine[j].todoID == id
    ensures TasksOf(rows + mine, id) == mine
    decreases |mine|
  {
    if mine == [] {
      assert rows + mine == rows;
      TasksOfForeign(rows, id);
    } else {
      var all := rows + mine;
      var init, last := mine[..|mine| - 1], mine[|mine| - 1];
      forall j | 0 <= j < |init|
        ensures init[j].todoID == id
      {
        assert init[j] == mine[j];
      }
      TasksOfAppendForeign(rows, init, id);
      assert all[..|all| - 1] == rows + init;
      assert all[|all| - 1] == last && last.todoID == id;
      assert TasksOf(all, id) == TasksOf(rows + init, id) + [last];
      assert mine == init + [last];
    }
  }

  lemma {:induction false} TasksOfForeign(rows: seq<Task>, id: string)
    requires forall j :: 0 <= j < |rows| ==> rows[j].todoID != id
    ensures TasksOf(rows, id) == []
    decreases |rows|
  {
    if rows != [] {
      TasksOfForeign(rows[..|rows| - 1], id);
    }
  }

  /** Updating never changes who owns a todo, nor which todos exist. */
  lemma UpdateKeepsOwnership(todos: map<string, TodoRow>, id: string, update: TodoRequest, k: string)
    requires k in todos
    ensures k in UpdatedTodos(todos, id, update)
    ensures UpdatedTodos(todos, id, update)[k].authorID == todos[k].authorID
  {
  }

  /** A nanoid failure is reported as success: no error, a zero todo, nothing stored. */
  lemma IdFailureReportedAsSuccess(todos: map<string, TodoRow>, faults: set<RepoOp>, data: TodoRequest)
    requires CreateOp !in faults
    ensures CreateAttempt(todos, faults, data, None) == (ZeroTodo, NoCause)
    ensures !Stores(todos, faults, None)
  {
  }
}
