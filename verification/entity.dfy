/** The persisted to-do record (todo-api/src/entities/todo.entity.ts). */
module Entity {

  import opened Wrappers

  /** The `priority` column: an enum of three values. */
  datatype Priority = High | Medium | Low

  /** The column default of `priority`. */
  const DefaultPriority: Priority := Medium

  /** The column default of `completed`. */
  const DefaultCompleted: bool := false

  /** The `length` of the `text` column. */
  const MaxTextLength: nat := 500

  /** A generated primary key (a uuid string). */
  type Id = string

  /**
    A stored item.  Timestamps are abstract naturals: `createdAt` is set on insert,
    `updatedAt` on each save.
   */
  datatype Todo = Todo(
    id: Id,
    text: string,
    completed: bool,
    priority: Priority,
    createdAt: nat,
    updatedAt: nat)

  /** The column domains that the store enforces on every row. */
  predicate ValidTodo(t: Todo) {
    |t.text| <= MaxTextLength
  }

  /** No two entries of a list share an id. */
  predicate UniqueIds(s: seq<Todo>) {
    forall i, j :: 0 <= i < j < |s| ==> s[i].id != s[j].id
  }

  /** The wire spelling of a priority. */
  function PriorityName(p: Priority): string {
    match p
    case High => "high"
    case Medium => "medium"
    case Low => "low"
  }

  /** Reads a priority back from its wire spelling; anything else is not a priority. */
  function ParsePriority(s: string): (r: Option<Priority>)
    ensures r.Some? <==> s in {"high", "medium", "low"}
    ensures r.Some? ==> PriorityName(r.value) == s
  {
    if s == "high" then Some(High)
    else if s == "medium" then Some(Medium)
    else if s == "low" then Some(Low)
    else None
  }

  /** The spelling of a priority reads back as that priority. */
  lemma PriorityRoundTrip(p: Priority)
    ensures ParsePriority(PriorityName(p)) == Some(p)
  {
  }

  /**
    The row that an insert of `text` and `priority` produces under key `id` at time `now`:
    the column default fills `completed`, and both timestamps take the insert time.
   */
  function NewTodo(id: Id, text: string, priority: Priority, now: nat): (r: Todo)
    requires |text| <= MaxTextLength
    ensures ValidTodo(r) && r.id == id && r.text == text && r.priority == priority
    ensures r.completed == DefaultCompleted && r.createdAt == now && r.updatedAt == now
  {
    Todo(id, text, DefaultCompleted, priority, now, now)
  }
}
