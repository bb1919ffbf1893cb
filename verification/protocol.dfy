/**
  The realtime wire contract between the server's gateway (todo-api/src/gateways/todo.gateway.ts)
  and the client's socket service (vue-todo-app/src/services/socket.ts): event names, payload
  shapes, the domain events the mutation service raises and the presence messages a client sends.
 */
module Protocol {

  import opened Entity

  /** The connection identity the server assigns to each socket. */
  type ConnId = string

  /** The `type` of a bulk delete: `'completed'` or `'all'`. */
  datatype BulkDeleteType = DeleteCompleted | DeleteAll

  /** One committed mutation of the store. */
  datatype DomainEvent =
    | Created(todo: Todo)
    | Updated(todo: Todo)
    | Deleted(id: Id)
    | BulkUpdated(todos: seq<Todo>)
    | BulkDeleted(kind: BulkDeleteType)

  /** The server-to-client event names. */
  datatype EventName =
    | TodoCreated | TodoUpdated | TodoDeleted | TodosBulkUpdated | TodosBulkDeleted
    | TodoEditStart | TodoEditEnd | TodoEditChange

  /** The values that travel with an event, on the wire or handed to a client listener. */
  datatype Payload =
    | TodoBody(todo: Todo)                                        // a todo object
    | TodoListBody(todos: seq<Todo>)                              // an array of todos
    | IdObject(id: Id)                                            // { id }
    | TypeObject(kind: BulkDeleteType)                            // { type }
    | IdValue(id: Id)                                             // a bare id string
    | TypeValue(kind: BulkDeleteType)                             // a bare type string
    | EditObject(todoId: Id, userId: ConnId)                      // { todoId, userId }
    | EditChangeObject(todoId: Id, text: string, userId: ConnId)  // { todoId, text, userId }

  /** A message as the server emits it. */
  datatype Message = Message(event: EventName, payload: Payload)

  /** The presence events, as opposed to the domain events. */
  predicate IsPresence(e: EventName) {
    e == TodoEditStart || e == TodoEditEnd || e == TodoEditChange
  }

  /** The payload shape the server sends with each event. */
  predicate WireShape(e: EventName, p: Payload) {
    match e
    case TodoCreated => p.TodoBody?
    case TodoUpdated => p.TodoBody?
    case TodoDeleted => p.IdObject?
    case TodosBulkUpdated => p.TodoListBody?
    case TodosBulkDeleted => p.TypeObject?
    case TodoEditStart => p.EditObject?
    case TodoEditEnd => p.EditObject?
    case TodoEditChange => p.EditChangeObject?
  }

  /** The argument shape each client listener receives for an event. */
  predicate ListenerShape(e: EventName, p: Payload) {
    match e
    case TodoDeleted => p.IdValue?
    case TodosBulkDeleted => p.TypeValue?
    case _ => WireShape(e, p)
  }

  predicate WellFormed(m: Message) {
    WireShape(m.event, m.payload)
  }

  /** The connection a presence message is attributed to. */
  function Editor(m: Message): ConnId
    requires WellFormed(m) && IsPresence(m.event)
  {
    m.payload.userId
  }

  /** The summary the stats request answers with. */
  datatype Stats = Stats(total: int, completed: int, active: int)

  /** The presence messages a client sends upstream. */
  datatype ClientMessage =
    | StartEdit(todoId: Id)
    | EndEdit(todoId: Id)
    | EditChange(todoId: Id, text: string)
}
