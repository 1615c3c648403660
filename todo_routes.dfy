/**
 * internal/todo/routes.go: the decisions of the todo and task handlers.
 *
 * Each handler is a chain of early returns. The order of its guards is a
 * pure function from the request (context, body, path value) and what the
 * repository answered to a Plan: answer now, or perform a write. The
 * handler methods then run that plan against a Repository.
 */
module TodoRoutes {
  import opened Wrappers
  import opened Http
  import opened Tokens
  import opened WebError
  import opened Strconv
  import opened TodoModels
  import opened TodoRepository
  import WebJwt
  import LegacyStore

  const InvalidDataDetail: string := "invalid data or malformed json"
  const NoAccessDetail: string := "you do not have access to this resource"
  const InvalidUserDetail: string := "invalid user id"

  /** errNotFound and errNoTodosForUser. */
  const ErrNotFound: Cause := Cause("not found")
  const ErrNoTodosForUser: Cause := Cause("no todos found for user")

  /** The local constants of HandleGetForUser. */
  const DefaultLimit: int := 10
  const DefaultPage: int := 1

  /** A request body: it decoded to a value (Decoded) or the content type or JSON was wrong. */
  datatype Body<T> = Decoded(value: T) | Undecodable(cause: Cause)

  /** web.ErrInvalidValue */
  const ErrInvalidValue: Cause := Cause("invalid value")

  /**
   * web.ReadJSON[T]: a body that decoded is accepted when its Valid method
   * holds and is otherwise ErrInvalidValue; a decoding error is passed on.
   */
  function ReadJSON<T>(b: Body<T>, valid: T -> bool): (r: Body<T>)
    ensures r.Decoded? <==> b.Decoded? && valid(b.value)
    ensures r.Decoded? ==> r == b
    ensures b.Decoded? && !valid(b.value) ==> r == Undecodable(ErrInvalidValue)
  {
    match b
    case Decoded(v) => if valid(v) then b else Undecodable(ErrInvalidValue)
    case Undecodable(_) => b
  }

  predicate RequestIsValid(r: TodoRequest) {
    r.Valid()
  }

  predicate TaskIsValid(t: Task) {
    t.Valid()
  }

  /** web.ReadJSON[TodoRequest] */
  function ReadTodoRequest(b: Body<TodoRequest>): Body<TodoRequest> {
    ReadJSON(b, RequestIsValid)
  }

  /** web.ReadJSON[Task] */
  function ReadTask(b: Body<Task>): Body<Task> {
    ReadJSON(b, TaskIsValid)
  }

  /** ctx.Value(web.UserID).(string). */
  function ContextUser(ctx: Context): Option<string> {
    StringValue(ctx, WebJwt.UserID)
  }

  /** The JSON a successful handler writes. */
  datatype Content = TodoContent(todo: Todo) | TodoListContent(todos: seq<Todo>) | TaskListContent(tasks: seq<Task>) | TextContent(text: string)

  /** What a handler writes: an ErrorResponse, WriteJSON(status, content), or nothing at all. */
  datatype Response = Failure(reply: Reply) | Success(status: int, content: Content) | Silent

  function Fail(status: int, detail: string, err: Cause): Response {
    Failure(ErrorResponse(status, detail, err))
  }

  /**
   * A 500 answer with `detail`: its status and body are those of
   * ErrorResponse(500, detail, _) whatever the store's error was, since the
   * body does not carry the underlying error.
   */
  predicate FailedWith(resp: Response, detail: string) {
    && resp.Failure?
    && resp.reply.status == 500
    && resp.reply.body == ErrorResponse(500, detail, NoCause).body
  }

  /** The decision a handler reaches before touching the store: answer now, or go on with `op`. */
  datatype Plan<T> = Answer(response: Response) | Perform(op: T)

  /** After a repository write: 500 with `detail` on an error, `success` otherwise. */
  function AfterWrite(err: Cause, detail: string, success: Response): (r: Response)
    ensures err != NoCause ==> r == Fail(500, detail, err) && r.reply.status == 500
    ensures err == NoCause ==> r == success
  {
    if err != NoCause then Fail(500, detail, err) else success
  }

  // ---------------------------------------------------------------------------
  // HandleCreate

  /**
   * HandleCreate up to repository.Create: the body is read first, then the
   * context user must be the request's AuthorID.
   */
  function CreatePlan(user: Option<string>, body: Body<TodoRequest>): (p: Plan<TodoRequest>)
    ensures ReadTodoRequest(body).Undecodable? ==> p == Answer(Fail(400, InvalidDataDetail, ReadTodoRequest(body).cause))
    ensures ReadTodoRequest(body).Decoded? && (user.None? || user.value != body.value.authorID) ==>
              p == Answer(Fail(403, NoAccessDetail, ErrInvalidUserID))
    ensures p.Perform? <==> body.Decoded? && body.value.Valid() && user == Some(body.value.authorID)
    ensures p.Perform? ==> p.op == body.value
  {
    match ReadTodoRequest(body)
    case Undecodable(cause) => Answer(Fail(400, InvalidDataDetail, cause))
    case Decoded(data) =>
      if user.None? || data.authorID != user.value then Answer(Fail(403, NoAccessDetail, ErrInvalidUserID))
      else Perform(data)
  }

  /** A malformed body is answered 400 whoever asks: the identity check comes after it. */
  lemma CreateReadsBodyFirst(u1: Option<string>, u2: Option<string>, body: Body<TodoRequest>)
    requires ReadTodoRequest(body).Undecodable?
    ensures CreatePlan(u1, body) == CreatePlan(u2, body)
    ensures CreatePlan(u1, body).response.reply.status == 400
  {
  }

  method HandleCreate(repo: Repository, ctx: Context, body: Body<TodoRequest>, freshID: Option<string>) returns (resp: Response)
    requires repo.Valid()
    modifies repo
    ensures repo.Valid() && repo.faults == old(repo.faults)
    ensures match CreatePlan(ContextUser(ctx), body)
            case Answer(r) => resp == r && repo.todos == old(repo.todos) && repo.taskRows == old(repo.taskRows)
            case Perform(data) =>
              var (t, err) := CreateAttempt(old(repo.todos), repo.faults, data, freshID);
              && resp == AfterWrite(err, "failed to create todo", Success(201, TodoContent(t)))
              && (Stores(old(repo.todos), repo.faults, freshID) ==>
                    && repo.todos == old(repo.todos)[freshID.value := TodoRow(data.authorID, data.name)]
                    && repo.taskRows == old(repo.taskRows) + Adopted(data.tasks.GetOr([]), freshID.value))
              && (!Stores(old(repo.todos), repo.faults, freshID) ==>
                    repo.todos == old(repo.todos) && repo.taskRows == old(repo.taskRows))
  {
    var plan := CreatePlan(ContextUser(ctx), body);
    match plan
    case Answer(r) =>
      resp := r;
    case Perform(data) =>
      var t, err := repo.Create(data, freshID);
      resp := AfterWrite(err, "failed to create todo", Success(201, TodoContent(t)));
  }

  // ---------------------------------------------------------------------------
  // HandleGetByID, HandleUpdate, HandleDelete: the shared guard

  /** The outcome of the guard the three {id} handlers share. */
  datatype Access = Denied(response: Response) | Granted(todo: Todo)

  /**
   * The shared guard: the context user first (400), then the lookup
   * (errNotFound 404, any other error 500), then ownership (403, logged
   * with GetByID's nil error).
   */
  function AccessDecision(user: Option<string>, l: Lookup): (a: Access)
    ensures user.None? ==> a == Denied(Fail(400, InvalidUserDetail, ErrInvalidUserID))
    ensures user.Some? && l.NotFound? ==> a == Denied(Fail(404, "todo not found", ErrNotFound))
    ensures user.Some? && l.LookupFailed? ==> a == Denied(Fail(500, "failed to retrieve todo", l.cause))
    ensures user.Some? && l.Found? && l.todo.authorID != user.value ==> a == Denied(Fail(403, NoAccessDetail, NoCause))
    ensures a.Granted? <==> user.Some? && l.Found? && l.todo.authorID == user.value
    ensures a.Granted? ==> a.todo == l.todo
  {
    match user
    case None => Denied(Fail(400, InvalidUserDetail, ErrInvalidUserID))
    case Some(u) =>
      match l
      case NotFound => Denied(Fail(404, "todo not found", ErrNotFound))
      case LookupFailed(cause) => Denied(Fail(500, "failed to retrieve todo", cause))
      case Found(t) => if u != t.authorID then Denied(Fail(403, NoAccessDetail, NoCause)) else Granted(t)
  }

  /** The guard's statuses are ordered: a missing user is decided before the lookup is looked at, a lookup error before ownership. */
  lemma AccessDecisionOrdered(user: Option<string>, l1: Lookup, l2: Lookup)
    ensures user.None? ==> AccessDecision(user, l1) == AccessDecision(user, l2)
    ensures user.Some? && !l1.Found? ==> AccessDecision(user, l1).Denied?
                                         && AccessDecision(user, l1).response.reply.status in {404, 500}
  {
  }

  /** HandleGetByID. */
  function GetByIDResponse(user: Option<string>, l: Lookup): (r: Response)
    ensures r.Success? <==> AccessDecision(user, l).Granted?
    ensures r.Success? ==> r == Success(200, TodoContent(l.todo))
    ensures !r.Success? ==> r == AccessDecision(user, l).response
  {
    match AccessDecision(user, l)
    case Denied(r) => r
    case Granted(t) => Success(200, TodoContent(t))
  }

  method HandleGetByID(repo: Repository, ctx: Context, id: string) returns (resp: Response)
    ensures resp == GetByIDResponse(ContextUser(ctx), repo.Lookup(id))
  {
    var user := ContextUser(ctx);
    if user.None? {
      return Fail(400, InvalidUserDetail, ErrInvalidUserID);
    }
    var l := repo.GetByID(id);
    resp := GetByIDResponse(user, l);
  }

  /**
   * HandleUpdate up to repository.Update: the shared guard, and only then
   * the body.
   */
  function UpdatePlan(user: Option<string>, l: Lookup, body: Body<TodoRequest>): (p: Plan<TodoRequest>)
    ensures AccessDecision(user, l).Denied? ==> p == Answer(AccessDecision(user, l).response)
    ensures AccessDecision(user, l).Granted? && ReadTodoRequest(body).Undecodable? ==>
              p == Answer(Fail(400, InvalidDataDetail, ReadTodoRequest(body).cause))
    ensures p.Perform? <==> AccessDecision(user, l).Granted? && ReadTodoRequest(body).Decoded?
    ensures p.Perform? ==> p.op == body.value && user == Some(l.todo.authorID)
  {
    match AccessDecision(user, l)
    case Denied(r) => Answer(r)
    case Granted(_) =>
      match ReadTodoRequest(body)
      case Undecodable(cause) => Answer(Fail(400, InvalidDataDetail, cause))
      case Decoded(update) => Perform(update)
  }

  /** A non-owner is answered 403 whatever the body: the body is read only after ownership passes. */
  lemma NonOwnerNeverSeesBodyError(u: string, t: Todo, b1: Body<TodoRequest>, b2: Body<TodoRequest>)
    requires t.authorID != u
    ensures UpdatePlan(Some(u), Found(t), b1) == UpdatePlan(Some(u), Found(t), b2)
    ensures UpdatePlan(Some(u), Found(t), b1) == Answer(Fail(403, NoAccessDetail, NoCause))
  {
  }

  method HandleUpdate(repo: Repository, ctx: Context, id: string, body: Body<TodoRequest>) returns (resp: Response)
    requires repo.Valid()
    modifies repo
    ensures repo.Valid() && repo.faults == old(repo.faults) && repo.taskRows == old(repo.taskRows)
    ensures match UpdatePlan(ContextUser(ctx), old(repo.Lookup(id)), body)
            case Answer(r) => resp == r && repo.todos == old(repo.todos)
            case Perform(update) =>
              && resp == AfterWrite(UpdateError(repo.faults, update), "failed to update todo", Success(200, TextContent("")))
              && repo.todos == (if UpdateError(repo.faults, update) == NoCause then UpdatedTodos(old(repo.todos), id, update)
                                else old(repo.todos))
  {
    var user := ContextUser(ctx);
    if user.None? {
      return Fail(400, InvalidUserDetail, ErrInvalidUserID);
    }
    var l := repo.GetByID(id);
    var plan := UpdatePlan(user, l, body);
    match plan
    case Answer(r) =>
      resp := r;
    case Perform(update) =>
      var err := repo.Update(id, update);
      resp := AfterWrite(err, "failed to update todo", Success(200, TextContent("")));
  }

  /** HandleDelete up to repository.DeleteTodo: just the shared guard. */
  function DeletePlan(user: Option<string>, l: Lookup): (p: Plan<string>)
    ensures AccessDecision(user, l).Denied? ==> p == Answer(AccessDecision(user, l).response)
    ensures p.Perform? <==> AccessDecision(user, l).Granted?
    ensures p.Perform? ==> p.op == l.todo.id && user == Some(l.todo.authorID)
  {
    match AccessDecision(user, l)
    case Denied(r) => Answer(r)
    case Granted(t) => Perform(t.id)
  }

  method HandleDelete(repo: Repository, ctx: Context, id: string) returns (resp: Response)
    requires repo.Valid()
    modifies repo
    ensures repo.Valid() && repo.faults == old(repo.faults) && repo.taskRows == old(repo.taskRows)
    ensures match DeletePlan(ContextUser(ctx), old(repo.Lookup(id)))
            case Answer(r) => resp == r && repo.todos == old(repo.todos)
            case Perform(_) =>
              if DeleteOp in repo.faults then FailedWith(resp, "failed to delete todo") && repo.todos == old(repo.todos)
              else resp == Silent && repo.todos == old(repo.todos) - {id}
  {
    var user := ContextUser(ctx);
    if user.None? {
      return Fail(400, InvalidUserDetail, ErrInvalidUserID);
    }
    var l := repo.GetByID(id);
    var plan := DeletePlan(user, l);
    match plan
    case Answer(r) =>
      resp := r;
    case Perform(_) =>
      var err := repo.DeleteTodo(id);
      resp := AfterWrite(err, "failed to delete todo", Silent);
  }

  /**
   * Writes happen only for the owner: whenever Update or Delete is
   * performed, the context user is the stored todo's author.
   */
  lemma WritesOnlyForOwner(user: Option<string>, l: Lookup, body: Body<TodoRequest>)
    ensures UpdatePlan(user, l, body).Perform? ==> l.Found? && user == Some(l.todo.authorID)
    ensures DeletePlan(user, l).Perform? ==> l.Found? && user == Some(l.todo.authorID)
  {
  }

  /**
   * Against this repository a missing todo is never a 404: GetByID wraps
   * the no-rows error, so the errNotFound branch does not fire and the
   * answer is 500.
   */
  lemma MissingTodoIsInternalError(repo: Repository, u: string, id: string)
    requires id !in repo.todos
    ensures GetByIDResponse(Some(u), repo.Lookup(id)).reply.status == 500
    ensures DeletePlan(Some(u), repo.Lookup(id)).response.reply.status == 500
  {
  }

  // ---------------------------------------------------------------------------
  // HandleGetForUser

  /** What GetByUserID answers: the user's todos, errNoTodosForUser, or another error. */
  datatype Listing = Listed(todos: seq<Todo>) | NoTodosForUser | ListFailed(cause: Cause)

  /** The page and limit HandleGetForUser passes on: Atoi of the query values, or the defaults. */
  function PageAndLimit(q: Query): (r: (int, int))
    ensures Atoi(QueryGet(q, "page")).Some? ==> r.0 == Atoi(QueryGet(q, "page")).value
    ensures Atoi(QueryGet(q, "page")).None? ==> r.0 == DefaultPage
    ensures Atoi(QueryGet(q, "limit")).Some? ==> r.1 == Atoi(QueryGet(q, "limit")).value
    ensures Atoi(QueryGet(q, "limit")).None? ==> r.1 == DefaultLimit
  {
    var page := Atoi(QueryGet(q, "page")).GetOr(DefaultPage);
    var limit := Atoi(QueryGet(q, "limit")).GetOr(DefaultLimit);
    (page, limit)
  }

  /** Without the parameters the first page of ten is asked for, which starts at row 0. */
  lemma QueryDefaults(q: Query)
    requires "page" !in q && "limit" !in q
    ensures PageAndLimit(q) == (1, 10)
    ensures LegacyStore.CalculateOffset(PageAndLimit(q).0, PageAndLimit(q).1) == 0
  {
  }

  /** Written page and limit values are read back. */
  lemma QueryReadsBack(q: Query, page: nat, limit: nat)
    requires page <= MaxInt && limit <= MaxInt
    requires "page" in q && q["page"] == Decimal(page) && "limit" in q && q["limit"] == Decimal(limit)
    ensures PageAndLimit(q) == (page, limit)
  {
    AtoiDecimal(page);
    AtoiDecimal(limit);
  }

  /** HandleGetForUser; `list` is GetByUserID(userID, limit, page). */
  function GetForUser(ctx: Context, q: Query, list: (string, int, int) -> Listing): (r: Response)
    ensures ContextUser(ctx).None? ==> r == Fail(400, InvalidUserDetail, ErrInvalidUserID)
    ensures ContextUser(ctx).Some? ==>
              var listing := list(ContextUser(ctx).value, PageAndLimit(q).1, PageAndLimit(q).0);
              && (listing.NoTodosForUser? ==> r == Fail(404, "no todos found for user", ErrNoTodosForUser))
              && (listing.ListFailed? ==> r == Fail(500, "failed to retrieve todo lists", listing.cause))
              && (listing.Listed? ==> r == Success(200, TodoListContent(listing.todos)))
  {
    var (page, limit) := PageAndLimit(q);
    match ContextUser(ctx)
    case None => Fail(400, InvalidUserDetail, ErrInvalidUserID)
    case Some(u) =>
      match list(u, limit, page)
      case NoTodosForUser => Fail(404, "no todos found for user", ErrNoTodosForUser)
      case ListFailed(cause) => Fail(500, "failed to retrieve todo lists", cause)
      case Listed(todos) => Success(200, TodoListContent(todos))
  }

  // ---------------------------------------------------------------------------
  // The task handlers: no identity check

  /** HandleCreateTask and HandleUpdateTask up to the repository: only the body is checked. */
  function TaskPlan(body: Body<Task>): (p: Plan<Task>)
    ensures p.Perform? <==> body.Decoded? && body.value.Valid()
    ensures p.Perform? ==> p.op == body.value
    ensures p.Answer? ==> p.response == Fail(400, InvalidDataDetail, ReadTask(body).cause)
  {
    match ReadTask(body)
    case Undecodable(cause) => Answer(Fail(400, InvalidDataDetail, cause))
    case Decoded(task) => Perform(task)
  }

  method HandleCreateTask(repo: Repository, ctx: Context, body: Body<Task>, freshID: Option<string>) returns (resp: Response)
    requires repo.Valid()
    modifies repo
    ensures repo.Valid() && repo.todos == old(repo.todos) && repo.faults == old(repo.faults)
    ensures match TaskPlan(body)
            case Answer(r) => resp == r && repo.taskRows == old(repo.taskRows)
            case Perform(task) =>
              if freshID.Some? && CreateTaskOp !in repo.faults
              then resp == Success(200, TextContent("")) && repo.taskRows == old(repo.taskRows) + [task.(id := freshID.value)]
              else FailedWith(resp, "failed to create task") && repo.taskRows == old(repo.taskRows)
  {
    match TaskPlan(body)
    case Answer(r) =>
      resp := r;
    case Perform(task) =>
      var err := repo.CreateTask(task, freshID);
      resp := AfterWrite(err, "failed to create task", Success(200, TextContent("")));
  }

  method HandleGetTasks(repo: Repository, ctx: Context, todoID: string) returns (resp: Response)
    ensures GetTasksOp in repo.faults ==> FailedWith(resp, "failed to retrieve tasks")
    ensures GetTasksOp !in repo.faults ==> resp == Success(200, TaskListContent(TasksOf(repo.taskRows, todoID)))
  {
    var tasks := repo.GetTasks(todoID);
    match tasks
    case None =>
      resp := Fail(500, "failed to retrieve tasks", Cause("todo_repo select tasks"));
    case Some(ts) =>
      resp := Success(200, TaskListContent(ts));
  }

  method HandleUpdateTask(repo: Repository, ctx: Context, body: Body<Task>) returns (resp: Response)
    requires repo.Valid()
    modifies repo
    ensures repo.Valid() && repo.todos == old(repo.todos) && repo.faults == old(repo.faults)
    ensures match TaskPlan(body)
            case Answer(r) => resp == r && repo.taskRows == old(repo.taskRows)
            case Perform(update) =>
              if UpdateTaskOp in repo.faults
              then FailedWith(resp, "failed to update task") && repo.taskRows == old(repo.taskRows)
              else resp == Success(200, TextContent("")) && repo.taskRows == UpdatedTasks(old(repo.taskRows), update)
  {
    match TaskPlan(body)
    case Answer(r) =>
      resp := r;
    case Perform(update) =>
      var err := repo.UpdateTask(update);
      resp := AfterWrite(err, "failed to update task", Success(200, TextContent("")));
  }

  method HandleDeleteTask(repo: Repository, ctx: Context, taskID: string) returns (resp: Response)
    requires repo.Valid()
    modifies repo
    ensures repo.Valid() && repo.todos == old(repo.todos) && repo.faults == old(repo.faults)
    ensures DeleteTaskOp in repo.faults ==> FailedWith(resp, "failed to delete task") && repo.taskRows == old(repo.taskRows)
    ensures DeleteTaskOp !in repo.faults ==>
              resp == Success(200, TextContent("")) && repo.taskRows == WithoutTask(old(repo.taskRows), taskID)
  {
    var err := repo.DeleteTask(taskID);
    resp := AfterWrite(err, "failed to delete task", Success(200, TextContent("")));
  }

  // ---------------------------------------------------------------------------
  // With the middleware in front

  /**
   * Behind web.Auth, the guard sees exactly the token's subject: a request
   * Auth forwards for subject u is granted a todo iff u is its author.
   */
  lemma AuthThenOwnership(lib: JwtLibrary, secret: string, now: Time, header: string, ctx: Context, u: string, t: Todo)
    requires WebJwt.Admits(lib, secret, now, header, u)
    ensures WebJwt.Auth(lib, secret, now, header, ctx).Forward?
    ensures var fwd := WebJwt.Auth(lib, secret, now, header, ctx).ctx;
            && ContextUser(fwd) == Some(u)
            && (AccessDecision(ContextUser(fwd), Found(t)).Granted? <==> t.authorID == u)
  {
    WebJwt.AuthForwardsExactlyAdmitted(lib, secret, now, header, ctx);
  }
}
