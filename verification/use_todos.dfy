/**
  The client's sync engine and presence tracker (vue-todo-app/src/composables/useTodos.ts).
  `allTodos` holds what the server returned for the current filter and is then patched in
  place by the `todoCreated`, `todoUpdated` and `todoDeleted` handlers; `editingTodos` maps a
  todo id to the peer editing it and the text that peer has typed.  Server round trips are
  parameters: the list or stats a request answered with, or `None` when it failed.
 */
module Composable {

  import opened Wrappers
  import opened Json
  import opened Entity
  import opened FilterDto
  import opened CreateDto
  import opened UpdateDto
  import opened Protocol
  import opened Socket
  import opened Listeners

  // ----- String.prototype.trim ------------------------------------------------------------

  /** The characters `trim` strips: white space and line terminators. */
  const Whitespace: set<char> := {
    ' ', '\t', '\n', '\r', '\U{B}', '\U{C}', '\U{A0}', '\U{1680}',
    '\U{2000}', '\U{2001}', '\U{2002}', '\U{2003}', '\U{2004}', '\U{2005}',
    '\U{2006}', '\U{2007}', '\U{2008}', '\U{2009}', '\U{200A}',
    '\U{2028}', '\U{2029}', '\U{202F}', '\U{205F}', '\U{3000}', '\U{FEFF}'
  }

  predicate IsWhitespace(c: char) {
    c in Whitespace
  }

  predicate Blank(s: string) {
    forall k :: 0 <= k < |s| ==> IsWhitespace(s[k])
  }

  /** The first position at or after `i` that does not hold white space, or `|s|`. */
  function FirstNonBlank(s: string, i: nat): (k: nat)
    requires i <= |s|
    ensures i <= k <= |s| && Blank(s[i..k])
    ensures k < |s| ==> !IsWhitespace(s[k])
    decreases |s| - i
  {
    if i < |s| && IsWhitespace(s[i]) then FirstNonBlank(s, i + 1) else i
  }

  /** The position just past the last character of `s[i..j]` that is not white space, or `i`. */
  function EndNonBlank(s: string, i: nat, j: nat): (k: nat)
    requires i <= j <= |s|
    ensures i <= k <= j && Blank(s[k..j])
    ensures i < k ==> !IsWhitespace(s[k - 1])
    decreases j
  {
    if i < j && IsWhitespace(s[j - 1]) then
      var k := EndNonBlank(s, i, j - 1);
      assert s[k..j] == s[k..j - 1] + [s[j - 1]];
      k
    else j
  }

  /** A string cut into two blank pieces is blank. */
  lemma BlankJoin(s: string, i: nat)
    requires i <= |s| && Blank(s[..i]) && Blank(s[i..])
    ensures Blank(s)
  {
    forall k | 0 <= k < |s| ensures IsWhitespace(s[k]) {
      if k < i {
        assert s[k] == s[..i][k];
      } else {
        assert s[k] == s[i..][k - i];
      }
    }
  }

  /** `trim` keeps nothing exactly when the input is blank. */
  lemma TrimEmptyIffBlank(s: string)
    ensures var i := FirstNonBlank(s, 0); EndNonBlank(s, i, |s|) == i <==> Blank(s)
  {
    var i := FirstNonBlank(s, 0);
    if EndNonBlank(s, i, |s|) == i {
      assert s[..i] == s[0..i] && s[i..] == s[i..|s|];
      BlankJoin(s, i);
    }
  }

  /**
    `trim`: the input without its leading and trailing white space.  The result is a slice of
    the input with only white space cut off on either side; it is empty exactly when the
    input is blank, and otherwise starts and ends with a non-space.
   */
  function Trim(s: string): (r: string)
    ensures exists i, j :: 0 <= i <= j <= |s| && r == s[i..j] && Blank(s[..i]) && Blank(s[j..])
    ensures r == [] <==> Blank(s)
    ensures r != [] ==> !IsWhitespace(r[0]) && !IsWhitespace(r[|r| - 1])
  {
    var i := FirstNonBlank(s, 0);
    var j := EndNonBlank(s, i, |s|);
    TrimEmptyIffBlank(s);
    assert s[..i] == s[0..i] && s[j..] == s[j..|s|];
    s[i..j]
  }

  /** Trimming twice is trimming once. */
  lemma TrimIdempotent(s: string)
    ensures Trim(Trim(s)) == Trim(s)
  {
    var r := Trim(s);
    if r != [] {
      assert FirstNonBlank(r, 0) == 0;
      assert EndNonBlank(r, 0, |r|) == |r|;
      assert r[0..|r|] == r;
    }
  }

  // ----- filter membership and list search ---------------------------------------------------

  /** `shouldShow`: whether an item belongs to the list under the current filter. */
  predicate ShouldShow(f: Filter, t: Todo) {
    f == All || (f == Active && !t.completed) || (f == Completed && t.completed)
  }

  /** Every entry of the list belongs under the filter. */
  predicate AllMatch(list: seq<Todo>, f: Filter) {
    forall i :: 0 <= i < |list| ==> ShouldShow(f, list[i])
  }

  predicate HasId(list: seq<Todo>, id: Id) {
    exists i :: 0 <= i < |list| && list[i].id == id
  }

  /** `findIndex(t => t.id === id)`: the first position holding `id`, or -1. */
  function FindIndex(list: seq<Todo>, id: Id): (r: int)
    ensures -1 <= r < |list|
    ensures r == -1 <==> !HasId(list, id)
    ensures r >= 0 ==> list[r].id == id && forall i :: 0 <= i < r ==> list[i].id != id
  {
    if list == [] then -1
    else if list[0].id == id then 0
    else
      var k := FindIndex(list[1..], id);
      if k == -1 then
        assert forall i :: 1 <= i < |list| ==> list[i].id == list[1..][i - 1].id;
        -1
      else k + 1
  }

  /** The entries whose id is not `id`, in their order. */
  function Without(list: seq<Todo>, id: Id): seq<Todo> {
    if list == [] then []
    else (if list[0].id == id then [] else [list[0]]) + Without(list[1..], id)
  }

  lemma {:induction false} WithoutConcat(a: seq<Todo>, b: seq<Todo>, id: Id)
    ensures Without(a + b, id) == Without(a, id) + Without(b, id)
  {
    if a != [] {
      assert (a + b)[0] == a[0];
      assert (a + b)[1..] == a[1..] + b;
      WithoutConcat(a[1..], b, id);
    } else {
      assert a + b == b;
    }
  }

  /** An entry survives `Without` exactly when it is in the list under another id. */
  lemma {:induction false} WithoutMembers(list: seq<Todo>, id: Id, x: Todo)
    ensures x in Without(list, id) <==> x in list && x.id != id
  {
    if list != [] {
      WithoutMembers(list[1..], id, x);
      assert list == [list[0]] + list[1..];
    }
  }

  /** Replacing or dropping the entry at a position that holds `id` does not change the other entries. */
  lemma WithoutAt(list: seq<Todo>, i: nat, t: Todo)
    requires i < |list| && list[i].id == t.id
    ensures Without(list[i := t], t.id) == Without(list, t.id)
    ensures Without(list[..i] + list[i + 1..], t.id) == Without(list, t.id)
  {
    var id := t.id;
    assert list == list[..i] + [list[i]] + list[i + 1..];
    assert list[i := t] == list[..i] + [t] + list[i + 1..];
    WithoutConcat(list[..i] + [list[i]], list[i + 1..], id);
    WithoutConcat(list[..i], [list[i]], id);
    WithoutConcat(list[..i] + [t], list[i + 1..], id);
    WithoutConcat(list[..i], [t], id);
    WithoutConcat(list[..i], list[i + 1..], id);
  }

  /** Dropping one position of a list with unique ids keeps them unique and loses that position's id. */
  lemma RemoveAtUnique(list: seq<Todo>, i: nat)
    requires i < |list| && UniqueIds(list)
    ensures UniqueIds(list[..i] + list[i + 1..])
    ensures !HasId(list[..i] + list[i + 1..], list[i].id)
    ensures forall x :: x in list[..i] + list[i + 1..] ==> x in list
  {
    var r := list[..i] + list[i + 1..];
    assert forall k :: 0 <= k < |r| ==> r[k] == list[if k < i then k else k + 1];
  }

  // ----- the three patch handlers, as functions of the list -----------------------------------

  /** The `todoCreated` handler: prepend the item when it belongs and no entry has its id. */
  function AfterCreated(list: seq<Todo>, f: Filter, todo: Todo): seq<Todo> {
    if ShouldShow(f, todo) && FindIndex(list, todo.id) == -1 then [todo] + list else list
  }

  /**
    The `todoUpdated` handler: a belonging item replaces its entry in place or is prepended;
    an item that no longer belongs loses its entry.
   */
  function AfterUpdated(list: seq<Todo>, f: Filter, todo: Todo): seq<Todo> {
    var index := FindIndex(list, todo.id);
    if ShouldShow(f, todo) then
      if index > -1 then list[index := todo] else [todo] + list
    else
      if index > -1 then list[..index] + list[index + 1..] else list
  }

  /** The `todoDeleted` handler: drop the entry with that id, if any. */
  function AfterDeleted(list: seq<Todo>, id: Id): seq<Todo> {
    var index := FindIndex(list, id);
    if index > -1 then list[..index] + list[index + 1..] else list
  }

  /**
    `todoCreated` inserts at the front only an item that belongs and whose id is new;
    otherwise the list is unchanged.  Unique ids and filter membership are kept.
   */
  lemma CreatedReconciles(list: seq<Todo>, f: Filter, todo: Todo)
    ensures AfterCreated(list, f, todo) == list || (AfterCreated(list, f, todo) == [todo] + list && ShouldShow(f, todo) && !HasId(list, todo.id))
    ensures HasId(AfterCreated(list, f, todo), todo.id) <==> HasId(list, todo.id) || ShouldShow(f, todo)
    ensures UniqueIds(list) ==> UniqueIds(AfterCreated(list, f, todo))
    ensures AllMatch(list, f) ==> AllMatch(AfterCreated(list, f, todo), f)
  {
    var r := AfterCreated(list, f, todo);
    if r != list {
      assert r[0].id == todo.id;
      assert forall k :: 1 <= k < |r| ==> r[k] == list[k - 1];
    }
  }

  /**
    After `todoUpdated` an entry with the item's id is present exactly when the item belongs
    under the filter, and then it is the item; an entry that still belongs keeps its position;
    every other entry, in order, is unchanged; ids stay unique and entries keep belonging.
   */
  lemma UpdatedReconciles(list: seq<Todo>, f: Filter, todo: Todo)
    requires UniqueIds(list)
    ensures UniqueIds(AfterUpdated(list, f, todo))
    ensures HasId(AfterUpdated(list, f, todo), todo.id) <==> ShouldShow(f, todo)
    ensures ShouldShow(f, todo) ==> todo in AfterUpdated(list, f, todo)
    ensures ShouldShow(f, todo) && HasId(list, todo.id) ==>
      |AfterUpdated(list, f, todo)| == |list| && AfterUpdated(list, f, todo)[FindIndex(list, todo.id)] == todo
    ensures Without(AfterUpdated(list, f, todo), todo.id) == Without(list, todo.id)
    ensures AllMatch(list, f) ==> AllMatch(AfterUpdated(list, f, todo), f)
  {
    if !ShouldShow(f, todo) {
      UpdatedDrops(list, f, todo);
    } else if FindIndex(list, todo.id) > -1 {
      UpdatedReplaces(list, f, todo);
    } else {
      UpdatedPrepends(list, f, todo);
    }
  }

  /** `todoUpdated` for an item that belongs and is listed: it replaces the entry in place. */
  lemma UpdatedReplaces(list: seq<Todo>, f: Filter, todo: Todo)
    requires UniqueIds(list) && ShouldShow(f, todo) && FindIndex(list, todo.id) > -1
    ensures UniqueIds(AfterUpdated(list, f, todo))
    ensures HasId(AfterUpdated(list, f, todo), todo.id) <==> ShouldShow(f, todo)
    ensures ShouldShow(f, todo) ==> todo in AfterUpdated(list, f, todo)
    ensures ShouldShow(f, todo) && HasId(list, todo.id) ==>
      |AfterUpdated(list, f, todo)| == |list| && AfterUpdated(list, f, todo)[FindIndex(list, todo.id)] == todo
    ensures Without(AfterUpdated(list, f, todo), todo.id) == Without(list, todo.id)
    ensures AllMatch(list, f) ==> AllMatch(AfterUpdated(list, f, todo), f)
  {
    var index := FindIndex(list, todo.id);
    WithoutAt(list, index, todo);
    assert AfterUpdated(list, f, todo)[index] == todo;
  }

  /** `todoUpdated` for an item that belongs and is not listed: it is prepended. */
  lemma UpdatedPrepends(list: seq<Todo>, f: Filter, todo: Todo)
    requires UniqueIds(list) && ShouldShow(f, todo) && FindIndex(list, todo.id) == -1
    ensures UniqueIds(AfterUpdated(list, f, todo))
    ensures HasId(AfterUpdated(list, f, todo), todo.id) <==> ShouldShow(f, todo)
    ensures ShouldShow(f, todo) ==> todo in AfterUpdated(list, f, todo)
    ensures Without(AfterUpdated(list, f, todo), todo.id) == Without(list, todo.id)
    ensures AllMatch(list, f) ==> AllMatch(AfterUpdated(list, f, todo), f)
  {
    var r := AfterUpdated(list, f, todo);
    assert r[0] == todo;
    assert forall k :: 1 <= k < |r| ==> r[k] == list[k - 1];
    WithoutConcat([todo], list, todo.id);
  }

  /** `todoUpdated` for an item that no longer belongs: its entry, if any, is removed. */
  lemma UpdatedDrops(list: seq<Todo>, f: Filter, todo: Todo)
    requires UniqueIds(list) && !ShouldShow(f, todo)
    ensures UniqueIds(AfterUpdated(list, f, todo))
    ensures HasId(AfterUpdated(list, f, todo), todo.id) <==> ShouldShow(f, todo)
    ensures ShouldShow(f, todo) ==> todo in AfterUpdated(list, f, todo)
    ensures Without(AfterUpdated(list, f, todo), todo.id) == Without(list, todo.id)
    ensures AllMatch(list, f) ==> AllMatch(AfterUpdated(list, f, todo), f)
  {
    var index := FindIndex(list, todo.id);
    if index > -1 {
      WithoutAt(list, index, todo);
      RemoveAtUnique(list, index);
    }
  }

  /**
    `todoDeleted` removes the entry with that id: afterwards no entry has it, the other
    entries keep their order, and an unknown id leaves the list unchanged.
   */
  lemma DeletedReconciles(list: seq<Todo>, f: Filter, id: Id)
    requires UniqueIds(list)
    ensures !HasId(list, id) ==> AfterDeleted(list, id) == list
    ensures !HasId(AfterDeleted(list, id), id)
    ensures Without(AfterDeleted(list, id), id) == Without(list, id)
    ensures UniqueIds(AfterDeleted(list, id))
    ensures AllMatch(list, f) ==> AllMatch(AfterDeleted(list, id), f)
  {
    var index := FindIndex(list, id);
    if index > -1 {
      WithoutAt(list, index, list[index]);
      RemoveAtUnique(list, index);
    }
  }

  /** The entries after `todoUpdated`: the item if it belongs, and every other entry with another id. */
  lemma UpdatedMembers(list: seq<Todo>, f: Filter, todo: Todo, x: Todo)
    requires UniqueIds(list)
    ensures x in AfterUpdated(list, f, todo) <==> (x == todo && ShouldShow(f, todo)) || (x in list && x.id != todo.id)
  {
    var r := AfterUpdated(list, f, todo);
    assert UniqueIds(r) && (HasId(r, todo.id) <==> ShouldShow(f, todo)) && (ShouldShow(f, todo) ==> todo in r)
      && Without(r, todo.id) == Without(list, todo.id) by {
      UpdatedReconciles(list, f, todo);
    }
    WithoutMembers(r, todo.id, x);
    WithoutMembers(list, todo.id, x);
    if x in r && x.id == todo.id {
      var i :| 0 <= i < |r| && r[i] == x;
      var j :| 0 <= j < |r| && r[j] == todo;
      assert i == j;
    }
  }

  /** The entries after `todoDeleted`: exactly those with another id. */
  lemma DeletedMembers(list: seq<Todo>, id: Id, x: Todo)
    requires UniqueIds(list)
    ensures x in AfterDeleted(list, id) <==> x in list && x.id != id
  {
    var r := AfterDeleted(list, id);
    assert !HasId(r, id) && Without(r, id) == Without(list, id) by {
      DeletedReconciles(list, All, id);
    }
    WithoutMembers(r, id, x);
    WithoutMembers(list, id, x);
    if x in r {
      var i :| 0 <= i < |r| && r[i] == x;
    }
  }

  /** Delivering the same `todoCreated` twice has the effect of delivering it once. */
  lemma CreatedIdempotent(list: seq<Todo>, f: Filter, todo: Todo)
    ensures AfterCreated(AfterCreated(list, f, todo), f, todo) == AfterCreated(list, f, todo)
  {
    CreatedReconciles(list, f, todo);
  }

  /** Delivering the same `todoUpdated` twice has the effect of delivering it once. */
  lemma UpdatedIdempotent(list: seq<Todo>, f: Filter, todo: Todo)
    requires UniqueIds(list)
    ensures AfterUpdated(AfterUpdated(list, f, todo), f, todo) == AfterUpdated(list, f, todo)
  {
    var u := AfterUpdated(list, f, todo);
    assert UniqueIds(u) && (HasId(u, todo.id) <==> ShouldShow(f, todo)) && (ShouldShow(f, todo) ==> todo in u) by {
      UpdatedReconciles(list, f, todo);
    }
    if ShouldShow(f, todo) {
      var k := FindIndex(u, todo.id);
      assert u[k] == todo by {
        var j :| 0 <= j < |u| && u[j] == todo;
        assert !(j < k) && !(k < j);
      }
      assert u[k := todo] == u;
    }
  }

  /** Delivering the same `todoDeleted` twice has the effect of delivering it once. */
  lemma DeletedIdempotent(list: seq<Todo>, id: Id)
    requires UniqueIds(list)
    ensures AfterDeleted(AfterDeleted(list, id), id) == AfterDeleted(list, id)
  {
    DeletedReconciles(list, All, id);
  }

  /** How the listeners set up by the composable patch the list for a domain message. */
  function Reconcile(list: seq<Todo>, f: Filter, e: EventName, arg: Payload): seq<Todo>
    requires ListenerShape(e, arg)
  {
    match e
    case TodoCreated => AfterCreated(list, f, arg.todo)
    case TodoUpdated => AfterUpdated(list, f, arg.todo)
    case TodoDeleted => AfterDeleted(list, arg.id)
    case _ => list
  }

  // ----- presence -----------------------------------------------------------------------

  /** A peer editing an item, and the text it has typed so far, if any. */
  datatype EditEntry = EditEntry(userId: ConnId, text: Option<string>)

  type Editing = map<Id, EditEntry>

  /** `todoEditStart`: the item is edited by `userId`, no text yet, whatever was recorded before. */
  function EditStarted(m: Editing, todoId: Id, userId: ConnId): (r: Editing)
    ensures r.Keys == m.Keys + {todoId}
    ensures r[todoId] == EditEntry(userId, None)
    ensures forall id :: id in m && id != todoId ==> r[id] == m[id]
  {
    m[todoId := EditEntry(userId, None)]
  }

  /** `todoEditEnd`: the entry goes, whoever the message names. */
  function EditEnded(m: Editing, todoId: Id): (r: Editing)
    ensures r.Keys == m.Keys - {todoId}
    ensures forall id :: id in r ==> r[id] == m[id]
  {
    m - {todoId}
  }

  /**
    `todoEditChange`: changes the map only when the item is recorded as edited by the
    message's user, and then only that entry's text; the keys and every editor stay the same.
   */
  function EditChanged(m: Editing, todoId: Id, text: string, userId: ConnId): (r: Editing)
    ensures r.Keys == m.Keys
    ensures forall id :: id in r ==> r[id].userId == m[id].userId
    ensures forall id :: id in r && id != todoId ==> r[id] == m[id]
    ensures todoId in m && m[todoId].userId == userId ==> r[todoId].text == Some(text)
    ensures !(todoId in m && m[todoId].userId == userId) ==> r == m
  {
    if todoId in m && m[todoId].userId == userId then m[todoId := EditEntry(userId, Some(text))] else m
  }

  /** The presence handlers, as they act on the map for a presence message. */
  function ApplyPresence(m: Editing, e: EventName, arg: Payload): Editing
    requires ListenerShape(e, arg)
  {
    match e
    case TodoEditStart => EditStarted(m, arg.todoId, arg.userId)
    case TodoEditEnd => EditEnded(m, arg.todoId)
    case TodoEditChange => EditChanged(m, arg.todoId, arg.text, arg.userId)
    case _ => m
  }

  // ----- requests -------------------------------------------------------------------------

  /** A request the composable sends to the server. */
  datatype Request = CreateRequest(body: Body) | UpdateRequest(id: Id, body: Body)

  /**
    The server accepts the body `addTodo` sends exactly when the trimmed text is at most 500
    characters, and then creates the item with that trimmed text and the chosen priority.
   */
  lemma AddTodoBodyAccepted(text: string, priority: Priority)
    requires !Blank(text)
    ensures ParseCreate(CreateBody(Trim(text), priority)).Success? <==> |Trim(text)| <= MaxTextLength
    ensures |Trim(text)| <= MaxTextLength ==> ParseCreate(CreateBody(Trim(text), priority)) == Success(CreateTodoDto(Trim(text), priority))
  {
    CreateBodyAccepted(Trim(text), priority);
  }

  /**
    The server accepts the body `updateTodo` sends exactly when a supplied trimmed text is at
    most 500 characters, and then reads back exactly the supplied fields.
   */
  lemma UpdateTodoBodyAccepted(text: Option<string>, priority: Option<Priority>)
    requires !(text.Some? && Blank(text.value))
    ensures var dto := UpdateTodoDto(if text.Some? then Some(Trim(text.value)) else None, None, priority);
      && (ParseUpdate(UpdateBody(dto)).Success? <==> (text.Some? ==> |Trim(text.value)| <= MaxTextLength))
      && ((text.Some? ==> |Trim(text.value)| <= MaxTextLength) ==> ParseUpdate(UpdateBody(dto)) == Success(dto))
  {
    UpdateRoundTrip(UpdateTodoDto(if text.Some? then Some(Trim(text.value)) else None, None, priority));
  }

  /** The body `toggleTodo` sends is always accepted and carries only the new `completed` value. */
  lemma ToggleTodoBodyAccepted(completed: bool)
    ensures ParseUpdate(UpdateBody(UpdateTodoDto(None, Some(!completed), None))) == Success(UpdateTodoDto(None, Some(!completed), None))
  {
    UpdateRoundTrip(UpdateTodoDto(None, Some(!completed), None));
  }

  /** `onMounted`: load the list for the current filter, connect, register the listeners. */
  method OnMounted(state: UseTodos, socket: SocketService, hs: seq<Handle>, fetched: Option<seq<Todo>>, stats: Option<Stats>)
    returns (requested: Filter)
    requires |hs| == 8
    modifies socket`socket, socket`listeners, state`allTodos, state`todoStats
    ensures socket.socket.Open?
    ensures socket.listeners == SubscribeAll(old(socket.listeners), ListenedEvents, hs)
    ensures requested == state.filter
    ensures state.allTodos == if fetched.Some? then fetched.value else old(state.allTodos)
    ensures state.todoStats == if fetched.Some? && stats.Some? then stats.value else old(state.todoStats)
  {
    requested := state.LoadTodos(None, fetched, stats);
    socket.Connect();
    SetupSocketListeners(socket, hs);
  }

  /** `onUnmounted`: `removeSocketListeners`, then disconnect. */
  method OnUnmounted(socket: SocketService, spare: seq<Handle>)
    requires |spare| == 8
    modifies socket`socket, socket`listeners
    ensures socket.socket == NoSocket
    ensures socket.listeners == UnsubscribeAll(old(socket.listeners), ListenedEvents, spare)
  {
    RemoveSocketListeners(socket, spare);
    socket.Disconnect();
  }

  class UseTodos {

    var allTodos: seq<Todo>
    var filter: Filter
    var editingTodos: Editing
    var todoStats: Stats

    /** The list invariant the handlers keep: unique ids, every entry under the filter. */
    ghost predicate Consistent()
      reads this
    {
      UniqueIds(allTodos) && AllMatch(allTodos, filter)
    }

    constructor ()
      ensures allTodos == [] && filter == All && editingTodos == map[] && todoStats == Stats(0, 0, 0)
      ensures Consistent()
    {
      allTodos := [];
      filter := All;
      editingTodos := map[];
      todoStats := Stats(0, 0, 0);
    }

    /** `loadStats`: takes the fetched stats; a failed request leaves them as they were. */
    method LoadStats(fetched: Option<Stats>)
      modifies this`todoStats
      ensures todoStats == if fetched.Some? then fetched.value else old(todoStats)
    {
      if fetched.Some? {
        todoStats := fetched.value;
      }
    }

    /**
      `loadTodos`: requests the list for `filterType`, or the current filter when none is
      given, and on success replaces `allTodos` wholesale with the answer and reloads stats;
      on failure the list and stats stay as they were.
     */
    method LoadTodos(filterType: Option<Filter>, fetched: Option<seq<Todo>>, stats: Option<Stats>) returns (requested: Filter)
      modifies this`allTodos, this`todoStats
      ensures requested == if filterType.Some? then filterType.value else filter
      ensures allTodos == if fetched.Some? then fetched.value else old(allTodos)
      ensures todoStats == if fetched.Some? && stats.Some? then stats.value else old(todoStats)
    {
      requested := if filterType.Some? then filterType.value else filter;
      if fetched.Some? {
        allTodos := fetched.value;
        LoadStats(stats);
      }
    }

    /** The `watch` on `filter`: a new filter reloads the list for it; the same filter does nothing. */
    method SetFilter(f: Filter, fetched: Option<seq<Todo>>, stats: Option<Stats>) returns (requested: Option<Filter>)
      modifies this`filter, this`allTodos, this`todoStats
      ensures filter == f
      ensures f == old(filter) ==> requested == None && allTodos == old(allTodos) && todoStats == old(todoStats)
      ensures f != old(filter) ==>
        && requested == Some(f)
        && allTodos == (if fetched.Some? then fetched.value else old(allTodos))
        && todoStats == (if fetched.Some? && stats.Some? then stats.value else old(todoStats))
    {
      if f == filter {
        return None;
      }
      filter := f;
      var r := LoadTodos(Some(f), fetched, stats);
      requested := Some(r);
    }

    /** `addTodo`: no request for blank text; otherwise a create request with the trimmed text. */
    method AddTodo(text: string, priority: Priority := Medium) returns (request: Option<Request>)
      ensures request.None? <==> Blank(text)
      ensures request.Some? ==> request.value == CreateRequest(CreateBody(Trim(text), priority))
    {
      if Trim(text) == "" {
        return None;
      }
      request := Some(CreateRequest(CreateBody(Trim(text), priority)));
    }

    /** `toggleTodo`: nothing when the id is not cached; otherwise an update of `completed` to the negation of the cached value. */
    method ToggleTodo(id: Id) returns (request: Option<Request>)
      ensures request.None? <==> !HasId(allTodos, id)
      ensures request.Some? ==>
        request.value == UpdateRequest(id, UpdateBody(UpdateTodoDto(None, Some(!allTodos[FindIndex(allTodos, id)].completed), None)))
    {
      var index := FindIndex(allTodos, id);
      if index == -1 {
        return None;
      }
      var todo := allTodos[index];
      request := Some(UpdateRequest(id, UpdateBody(UpdateTodoDto(None, Some(!todo.completed), None))));
    }

    /** `updateTodo`: nothing when a supplied text is blank; otherwise only the supplied fields, the text trimmed. */
    method UpdateTodo(id: Id, text: Option<string>, priority: Option<Priority>) returns (request: Option<Request>)
      ensures request.None? <==> text.Some? && Blank(text.value)
      ensures request.Some? ==>
        request.value == UpdateRequest(id, UpdateBody(UpdateTodoDto(if text.Some? then Some(Trim(text.value)) else None, None, priority)))
    {
      if text.Some? && Trim(text.value) == "" {
        return None;
      }
      var updateText := if text.Some? then Some(Trim(text.value)) else None;
      request := Some(UpdateRequest(id, UpdateBody(UpdateTodoDto(updateText, None, priority))));
    }

    /** The `todoCreated` listener. */
    method OnTodoCreated(todo: Todo, stats: Option<Stats>)
      modifies this`allTodos, this`todoStats
      ensures allTodos == AfterCreated(old(allTodos), filter, todo)
      ensures todoStats == if stats.Some? then stats.value else old(todoStats)
      ensures old(Consistent()) ==> Consistent()
    {
      CreatedReconciles(allTodos, filter, todo);
      var shouldShow := ShouldShow(filter, todo);
      if shouldShow {
        var existingIndex := FindIndex(allTodos, todo.id);
        if existingIndex == -1 {
          allTodos := [todo] + allTodos;
        }
      }
      LoadStats(stats);
    }

    /** The `todoUpdated` listener. */
    method OnTodoUpdated(todo: Todo, stats: Option<Stats>)
      modifies this`allTodos, this`todoStats
      ensures allTodos == AfterUpdated(old(allTodos), filter, todo)
      ensures todoStats == if stats.Some? then stats.value else old(todoStats)
      ensures old(Consistent()) ==> Consistent()
    {
      ghost var before := allTodos;
      assert UniqueIds(before) && AllMatch(before, filter) ==>
        UniqueIds(AfterUpdated(before, filter, todo)) && AllMatch(AfterUpdated(before, filter, todo), filter) by {
        if UniqueIds(before) {
          UpdatedReconciles(before, filter, todo);
        }
      }
      var shouldShow := ShouldShow(filter, todo);
      var index := FindIndex(allTodos, todo.id);
      if shouldShow {
        if index > -1 {
          allTodos := allTodos[index := todo];
        } else {
          allTodos := [todo] + allTodos;
        }
      } else {
        if index > -1 {
          allTodos := allTodos[..index] + allTodos[index + 1..];
        }
      }
      assert allTodos == AfterUpdated(before, filter, todo);
      LoadStats(stats);
    }

    /** The `todoDeleted` listener. */
    method OnTodoDeleted(todoId: Id, stats: Option<Stats>)
      modifies this`allTodos, this`todoStats
      ensures allTodos == AfterDeleted(old(allTodos), todoId)
      ensures todoStats == if stats.Some? then stats.value else old(todoStats)
      ensures old(Consistent()) ==> Consistent()
    {
      if Consistent() {
        DeletedReconciles(allTodos, filter, todoId);
      }
      var index := FindIndex(allTodos, todoId);
      if index > -1 {
        allTodos := allTodos[..index] + allTodos[index + 1..];
      }
      LoadStats(stats);
    }

    /** The `todosBulkUpdated` listener: a full reload under the current filter. */
    method OnTodosBulkUpdated(fetched: Option<seq<Todo>>, stats: Option<Stats>) returns (requested: Filter)
      modifies this`allTodos, this`todoStats
      ensures requested == filter
      ensures allTodos == if fetched.Some? then fetched.value else old(allTodos)
      ensures todoStats == if fetched.Some? && stats.Some? then stats.value else old(todoStats)
    {
      requested := LoadTodos(None, fetched, stats);
    }

    /** The `todosBulkDeleted` listener: a full reload under the current filter. */
    method OnTodosBulkDeleted(fetched: Option<seq<Todo>>, stats: Option<Stats>) returns (requested: Filter)
      modifies this`allTodos, this`todoStats
      ensures requested == filter
      ensures allTodos == if fetched.Some? then fetched.value else old(allTodos)
      ensures todoStats == if fetched.Some? && stats.Some? then stats.value else old(todoStats)
    {
      requested := LoadTodos(None, fetched, stats);
    }

    /** The `todoEditStart` listener. */
    method OnTodoEditStart(todoId: Id, userId: ConnId)
      modifies this`editingTodos
      ensures editingTodos == EditStarted(old(editingTodos), todoId, userId)
      ensures IsBeingEdited(todoId) && GetEditingUserId(todoId) == Some(userId) && GetEditingText(todoId) == None
    {
      editingTodos := editingTodos[todoId := EditEntry(userId, None)];
    }

    /** The `todoEditEnd` listener: the entry goes whatever user the message names. */
    method OnTodoEditEnd(todoId: Id, userId: ConnId)
      modifies this`editingTodos
      ensures editingTodos == EditEnded(old(editingTodos), todoId)
      ensures !IsBeingEdited(todoId)
    {
      editingTodos := editingTodos - {todoId};
    }

    /** The `todoEditChange` listener, guarded by the editor's identity. */
    method OnTodoEditChange(todoId: Id, text: string, userId: ConnId)
      modifies this`editingTodos
      ensures editingTodos == EditChanged(old(editingTodos), todoId, text, userId)
    {
      if todoId in editingTodos && editingTodos[todoId].userId == userId {
        editingTodos := editingTodos[todoId := EditEntry(userId, Some(text))];
      }
    }

    /**
      The callbacks `setupSocketListeners` registers, selected by event: what one delivery of
      `arg` for `e` does.  The two bulk events reload the list; the three item events patch
      it; the presence events touch only `editingTodos`.
     */
    method RunListener(e: EventName, arg: Payload, fetched: Option<seq<Todo>>, stats: Option<Stats>)
      requires ListenerShape(e, arg)
      modifies this`allTodos, this`todoStats, this`editingTodos
      ensures e == TodosBulkUpdated || e == TodosBulkDeleted ==>
        allTodos == (if fetched.Some? then fetched.value else old(allTodos))
      ensures e != TodosBulkUpdated && e != TodosBulkDeleted ==> allTodos == Reconcile(old(allTodos), filter, e, arg)
      ensures editingTodos == ApplyPresence(old(editingTodos), e, arg)
      ensures e == TodoCreated || e == TodoUpdated || e == TodoDeleted ==>
        todoStats == (if stats.Some? then stats.value else old(todoStats))
      ensures e == TodosBulkUpdated || e == TodosBulkDeleted ==>
        todoStats == (if fetched.Some? && stats.Some? then stats.value else old(todoStats))
      ensures IsPresence(e) ==> todoStats == old(todoStats)
      ensures old(Consistent()) && e != TodosBulkUpdated && e != TodosBulkDeleted ==> Consistent()
    {
      match e
      case TodoCreated => OnTodoCreated(arg.todo, stats);
      case TodoUpdated => OnTodoUpdated(arg.todo, stats);
      case TodoDeleted => OnTodoDeleted(arg.id, stats);
      case TodosBulkUpdated => var _ := OnTodosBulkUpdated(fetched, stats);
      case TodosBulkDeleted => var _ := OnTodosBulkDeleted(fetched, stats);
      case TodoEditStart => OnTodoEditStart(arg.todoId, arg.userId);
      case TodoEditEnd => OnTodoEditEnd(arg.todoId, arg.userId);
      case TodoEditChange => OnTodoEditChange(arg.todoId, arg.text, arg.userId);
    }

    /** `isBeingEdited`. */
    function IsBeingEdited(todoId: Id): bool
      reads this
    {
      todoId in editingTodos
    }

    /** `getEditingText`: the typed text of a recorded editor; nothing for an item nobody edits. */
    function GetEditingText(todoId: Id): (r: Option<string>)
      reads this
      ensures !IsBeingEdited(todoId) ==> r == None
      ensures IsBeingEdited(todoId) ==> r == editingTodos[todoId].text
    {
      if todoId in editingTodos then editingTodos[todoId].text else None
    }

    /** `getEditingUserId`: defined exactly for the items being edited. */
    function GetEditingUserId(todoId: Id): (r: Option<ConnId>)
      reads this
      ensures r.Some? <==> IsBeingEdited(todoId)
      ensures r.Some? ==> r.value == editingTodos[todoId].userId
    {
      if todoId in editingTodos then Some(editingTodos[todoId].userId) else None
    }

    /** `startEditing`, `endEditing` and `emitEditChange` only hand over to the socket service. */
    method StartEditing(socket: SocketService, todoId: Id)
      modifies socket`sent
      ensures socket.sent == old(socket.sent) + (if socket.socket.Open? then [StartEdit(todoId)] else [])
    {
      socket.EmitStartEdit(todoId);
    }

    method EndEditing(socket: SocketService, todoId: Id)
      modifies socket`sent
      ensures socket.sent == old(socket.sent) + (if socket.socket.Open? then [EndEdit(todoId)] else [])
    {
      socket.EmitEndEdit(todoId);
    }

    method EmitEditChange(socket: SocketService, todoId: Id, text: string)
      modifies socket`sent
      ensures socket.sent == old(socket.sent) + (if socket.socket.Open? then [EditChange(todoId, text)] else [])
    {
      socket.EmitEditChange(todoId, text);
    }
  }
}
