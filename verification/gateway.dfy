/**
  The broadcaster (todo-api/src/gateways/todo.gateway.ts).  The set of connected sockets is a
  registry from connection id to the sequence of messages that connection has been sent.
  Domain events go to every connection; presence messages go to every connection but the
  sender's, stamped with the sender's id.
 */
module Gateway {

  import opened Entity
  import opened Protocol

  type Inboxes = map<ConnId, seq<Message>>

  /** What `server.emit` does with a message: every connection receives it. */
  function SendToAll(inboxes: Inboxes, m: Message): (r: Inboxes)
    ensures r.Keys == inboxes.Keys
    ensures forall c :: c in r ==> r[c] == inboxes[c] + [m]
  {
    map c | c in inboxes :: inboxes[c] + [m]
  }

  /** What `client.broadcast.emit` does: every connection but the sender's receives it. */
  function SendToOthers(inboxes: Inboxes, sender: ConnId, m: Message): (r: Inboxes)
    ensures r.Keys == inboxes.Keys
    ensures sender in inboxes ==> r[sender] == inboxes[sender]
    ensures forall c :: c in r && c != sender ==> r[c] == inboxes[c] + [m]
  {
    map c | c in inboxes :: if c == sender then inboxes[c] else inboxes[c] + [m]
  }

  /**
    The message the emitter for a domain event sends: the saved todo itself for a create or an
    update, `{ id }` for a delete, the list for a bulk update and `{ type }` for a bulk delete.
   */
  function ToMessage(e: DomainEvent): (m: Message)
    ensures WellFormed(m) && !IsPresence(m.event)
    ensures e.Deleted? ==> m == Message(TodoDeleted, IdObject(e.id))
    ensures e.BulkDeleted? ==> m == Message(TodosBulkDeleted, TypeObject(e.kind))
  {
    match e
    case Created(t) => Message(TodoCreated, TodoBody(t))
    case Updated(t) => Message(TodoUpdated, TodoBody(t))
    case Deleted(id) => Message(TodoDeleted, IdObject(id))
    case BulkUpdated(ts) => Message(TodosBulkUpdated, TodoListBody(ts))
    case BulkDeleted(k) => Message(TodosBulkDeleted, TypeObject(k))
  }

  /** Every message a connection holds has the payload shape of its event. */
  predicate AllWellFormed(inboxes: Inboxes) {
    forall c, i :: c in inboxes && 0 <= i < |inboxes[c]| ==> WellFormed(inboxes[c][i])
  }

  /** No connection holds a presence message attributed to itself. */
  predicate NoEcho(inboxes: Inboxes) {
    forall c, i :: c in inboxes && 0 <= i < |inboxes[c]| && WellFormed(inboxes[c][i]) && IsPresence(inboxes[c][i].event)
      ==> Editor(inboxes[c][i]) != c
  }

  /** A domain broadcast never puts a presence message anywhere. */
  lemma BroadcastKeepsNoEcho(inboxes: Inboxes, m: Message)
    requires NoEcho(inboxes) && !IsPresence(m.event)
    ensures NoEcho(SendToAll(inboxes, m))
  {
    var r := SendToAll(inboxes, m);
    forall c, i | c in r && 0 <= i < |r[c]| && WellFormed(r[c][i]) && IsPresence(r[c][i].event)
      ensures Editor(r[c][i]) != c
    {
      assert r[c][i] == inboxes[c][i];
    }
  }

  /** A relay stamped with its sender's id never reaches a connection whose id it carries. */
  lemma RelayKeepsNoEcho(inboxes: Inboxes, sender: ConnId, m: Message)
    requires NoEcho(inboxes) && WellFormed(m) && IsPresence(m.event) && Editor(m) == sender
    ensures NoEcho(SendToOthers(inboxes, sender, m))
  {
    var r := SendToOthers(inboxes, sender, m);
    forall c, i | c in r && 0 <= i < |r[c]| && WellFormed(r[c][i]) && IsPresence(r[c][i].event)
      ensures Editor(r[c][i]) != c
    {
      if c != sender && i == |inboxes[c]| {
        assert r[c][i] == m;
      } else {
        assert r[c][i] == inboxes[c][i];
      }
    }
  }

  class TodoGateway {

    /** The connected sockets and, for each, the messages it has been sent. */
    var inboxes: Inboxes

    ghost predicate Valid()
      reads this
    {
      AllWellFormed(inboxes)
    }

    constructor ()
      ensures Valid() && inboxes == map[]
    {
      inboxes := map[];
    }

    /** A socket connects under a fresh id; the handler only logs, so nothing is sent (no backfill). */
    method HandleConnection(client: ConnId)
      requires Valid() && client !in inboxes
      modifies this
      ensures Valid()
      ensures inboxes == old(inboxes)[client := []]
      ensures old(NoEcho(inboxes)) ==> NoEcho(inboxes)
    {
      inboxes := inboxes[client := []];
    }

    /** A socket leaves; the handler only logs, so nobody is sent a closing `todoEditEnd`. */
    method HandleDisconnect(client: ConnId)
      requires Valid()
      modifies this
      ensures Valid()
      ensures inboxes == old(inboxes) - {client}
      ensures forall c :: c in inboxes ==> inboxes[c] == old(inboxes)[c]
      ensures old(NoEcho(inboxes)) ==> NoEcho(inboxes)
    {
      inboxes := inboxes - {client};
    }

    /** Sends a domain event's message to every connection, the requester's included. */
    method Publish(e: DomainEvent)
      requires Valid()
      modifies this
      ensures Valid()
      ensures inboxes == SendToAll(old(inboxes), ToMessage(e))
      ensures old(NoEcho(inboxes)) ==> NoEcho(inboxes)
    {
      if old(NoEcho(inboxes)) {
        BroadcastKeepsNoEcho(inboxes, ToMessage(e));
      }
      inboxes := SendToAll(inboxes, ToMessage(e));
    }

    method EmitTodoCreated(todo: Todo)
      requires Valid()
      modifies this
      ensures Valid()
      ensures inboxes == SendToAll(old(inboxes), Message(TodoCreated, TodoBody(todo)))
      ensures old(NoEcho(inboxes)) ==> NoEcho(inboxes)
    {
      Publish(Created(todo));
    }

    method EmitTodoUpdated(todo: Todo)
      requires Valid()
      modifies this
      ensures Valid()
      ensures inboxes == SendToAll(old(inboxes), Message(TodoUpdated, TodoBody(todo)))
      ensures old(NoEcho(inboxes)) ==> NoEcho(inboxes)
    {
      Publish(Updated(todo));
    }

    method EmitTodoDeleted(todoId: Id)
      requires Valid()
      modifies this
      ensures Valid()
      ensures inboxes == SendToAll(old(inboxes), Message(TodoDeleted, IdObject(todoId)))
      ensures old(NoEcho(inboxes)) ==> NoEcho(inboxes)
    {
      Publish(Deleted(todoId));
    }

    method EmitTodosBulkUpdated(todos: seq<Todo>)
      requires Valid()
      modifies this
      ensures Valid()
      ensures inboxes == SendToAll(old(inboxes), Message(TodosBulkUpdated, TodoListBody(todos)))
      ensures old(NoEcho(inboxes)) ==> NoEcho(inboxes)
    {
      Publish(BulkUpdated(todos));
    }

    method EmitTodosBulkDeleted(kind: BulkDeleteType)
      requires Valid()
      modifies this
      ensures Valid()
      ensures inboxes == SendToAll(old(inboxes), Message(TodosBulkDeleted, TypeObject(kind)))
      ensures old(NoEcho(inboxes)) ==> NoEcho(inboxes)
    {
      Publish(BulkDeleted(kind));
    }

    /** Unused by the server: a presence broadcast to everyone, the named user included. */
    method EmitTodoEditStart(todoId: Id, userId: ConnId)
      requires Valid()
      modifies this
      ensures Valid()
      ensures inboxes == SendToAll(old(inboxes), Message(TodoEditStart, EditObject(todoId, userId)))
    {
      inboxes := SendToAll(inboxes, Message(TodoEditStart, EditObject(todoId, userId)));
    }

    /** Unused by the server: a presence broadcast to everyone, the named user included. */
    method EmitTodoEditEnd(todoId: Id, userId: ConnId)
      requires Valid()
      modifies this
      ensures Valid()
      ensures inboxes == SendToAll(old(inboxes), Message(TodoEditEnd, EditObject(todoId, userId)))
    {
      inboxes := SendToAll(inboxes, Message(TodoEditEnd, EditObject(todoId, userId)));
    }

    /** Unused by the server: a presence broadcast to everyone, the named user included. */
    method EmitTodoEditChange(todoId: Id, text: string, userId: ConnId)
      requires Valid()
      modifies this
      ensures Valid()
      ensures inboxes == SendToAll(old(inboxes), Message(TodoEditChange, EditChangeObject(todoId, text, userId)))
    {
      inboxes := SendToAll(inboxes, Message(TodoEditChange, EditChangeObject(todoId, text, userId)));
    }

    /**
      `startEdit` from `client`: every other connection receives `todoEditStart` carrying the
      todo id and, as `userId`, the sender's connection id; the sender receives nothing.
     */
    method HandleStartEdit(todoId: Id, client: ConnId)
      requires Valid() && client in inboxes
      modifies this
      ensures Valid()
      ensures inboxes == SendToOthers(old(inboxes), client, Message(TodoEditStart, EditObject(todoId, client)))
      ensures inboxes[client] == old(inboxes)[client]
      ensures old(NoEcho(inboxes)) ==> NoEcho(inboxes)
    {
      var m := Message(TodoEditStart, EditObject(todoId, client));
      if old(NoEcho(inboxes)) {
        RelayKeepsNoEcho(inboxes, client, m);
      }
      inboxes := SendToOthers(inboxes, client, m);
    }

    /** `endEdit` from `client`: relayed to every other connection, stamped with the sender's id. */
    method HandleEndEdit(todoId: Id, client: ConnId)
      requires Valid() && client in inboxes
      modifies this
      ensures Valid()
      ensures inboxes == SendToOthers(old(inboxes), client, Message(TodoEditEnd, EditObject(todoId, client)))
      ensures inboxes[client] == old(inboxes)[client]
      ensures old(NoEcho(inboxes)) ==> NoEcho(inboxes)
    {
      var m := Message(TodoEditEnd, EditObject(todoId, client));
      if old(NoEcho(inboxes)) {
        RelayKeepsNoEcho(inboxes, client, m);
      }
      inboxes := SendToOthers(inboxes, client, m);
    }

    /** `editChange` from `client`: the text is forwarded unchanged to every other connection, stamped with the sender's id. */
    method HandleEditChange(todoId: Id, text: string, client: ConnId)
      requires Valid() && client in inboxes
      modifies this
      ensures Valid()
      ensures inboxes == SendToOthers(old(inboxes), client, Message(TodoEditChange, EditChangeObject(todoId, text, client)))
      ensures inboxes[client] == old(inboxes)[client]
      ensures old(NoEcho(inboxes)) ==> NoEcho(inboxes)
    {
      var m := Message(TodoEditChange, EditChangeObject(todoId, text, client));
      if old(NoEcho(inboxes)) {
        RelayKeepsNoEcho(inboxes, client, m);
      }
      inboxes := SendToOthers(inboxes, client, m);
    }
  }
}
