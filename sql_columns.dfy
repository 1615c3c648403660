/**
 * The column order of the todo statements of internal/todo/sql.go, as
 * internal/todo/repository.go binds and scans them: the statements list
 * the columns as (id, name, author_id), the Go code passes and scans the
 * fields as (ID, AuthorID, Name).
 *
 * The bindings as written (the ...AsWritten members) put the author in
 * the name column and the name in the author_id column. Create followed by
 * GetByID reads back correctly because the two swaps cancel, but Update
 * writes the new name into the column that is read back as the author, and
 * the author query matches on the column holding the names. The bindings
 * in field order are what TodoRepository models.
 */
module SqlColumns {
  import opened Wrappers
  import opened TodoModels
  import opened TodoRepository

  /** A todo table row, column by column. */
  datatype Columns = Columns(id: string, name: string, authorID: string)

  /** insertTodoQuery with the arguments t.ID, t.AuthorID, t.Name. */
  function InsertAsWritten(t: Todo): Columns {
    Columns(t.id, t.authorID, t.name)
  }

  /** selectTodoQuery scanned into &t.ID, &t.AuthorID, &t.Name. */
  function ScanAsWritten(c: Columns): Todo {
    Todo(c.id, c.name, c.authorID, None)
  }

  /** updateTodoQuery: SET name = $1 (both versions). */
  function Rename(c: Columns, name: string): Columns {
    c.(name := name)
  }

  /** The bindings in field order. */
  function Insert(t: Todo): Columns {
    Columns(t.id, t.name, t.authorID)
  }

  function Scan(c: Columns): Todo {
    Todo(c.id, c.authorID, c.name, None)
  }

  /** selectTodosByAuthorIDQuery: WHERE author_id = $1. */
  predicate MatchesAuthor(c: Columns, userID: string) {
    c.authorID == userID
  }

  /** As written, insert then select reads back correctly: the two swaps cancel. */
  lemma AsWrittenRoundTrip(t: Todo)
    ensures ScanAsWritten(InsertAsWritten(t)) == t.(tasks := None)
  {
  }

  /**
   * As written, an Update by the owner makes the new name the todo's
   * author: the owner is then refused with 403 and the name's namesake is
   * let in.
   */
  lemma AsWrittenRenameTransfersOwnership(t: Todo, newName: string)
    requires newName != "" && newName != t.authorID
    ensures ScanAsWritten(Rename(InsertAsWritten(t), newName)).authorID == newName
    ensures ScanAsWritten(Rename(InsertAsWritten(t), newName)).name == t.name
  {
  }

  /** The same, for a concrete rename of a todo of "alice" to "groceries". */
  lemma AsWrittenRenameExample()
    ensures var before := Todo("todo1", "alice", "shopping", None);
            var after := ScanAsWritten(Rename(InsertAsWritten(before), "groceries"));
            after.authorID == "groceries" && after.authorID != before.authorID
  {
  }

  /** As written, listing the todos of a user matches the todos whose name is the user id. */
  lemma AsWrittenListingMatchesName(t: Todo, userID: string)
    ensures MatchesAuthor(InsertAsWritten(t), userID) <==> t.name == userID
  {
  }

  /** In field order, insert then select reads back too. */
  lemma RoundTrip(t: Todo)
    ensures Scan(Insert(t)) == t.(tasks := None)
  {
  }

  /**
   * In field order, a rename changes only the name, as TodoRepository's
   * UpdatedTodos does, and the author query matches the author.
   */
  lemma RenameKeepsOwnership(t: Todo, newName: string, userID: string)
    ensures Scan(Rename(Insert(t), newName)) == t.(name := newName, tasks := None)
    ensures MatchesAuthor(Insert(t), userID) <==> t.authorID == userID
    ensures var todos := map[t.id := TodoRow(t.authorID, t.name)];
            var update := TodoRequest("", newName, None);
            newName != "" ==>
              UpdatedTodos(todos, t.id, update)[t.id] == TodoRow(Scan(Rename(Insert(t), newName)).authorID,
                                                                 Scan(Rename(Insert(t), newName)).name)
  {
  }
}
