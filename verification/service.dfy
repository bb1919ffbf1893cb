/**
  The mutation service (todo-api/src/services/todo.service.ts): store operations over the
  `todos` table, each successful mutation followed by exactly one domain event.  The table is a
  map from primary key to row; the gateway calls the service makes are recorded, in order, in an
  append-only event log.
 */
module Service {

  import opened Wrappers
  import opened Entity
  import opened FilterDto
  import opened CreateDto
  import opened UpdateDto
  import opened Protocol

  datatype ServiceError = NotFound(id: Id)

  type Store = map<Id, Todo>

  /** Every row sits under its own primary key and fits its column domains. */
  predicate KeyedById(store: Store) {
    forall id :: id in store ==> store[id].id == id && ValidTodo(store[id])
  }

  // ----- queries -------------------------------------------------------------------------

  /** The `where` clause of `findAll`: `active` and `completed` select by the flag, anything else selects every row. */
  predicate ServerMatches(filter: Option<Filter>, t: Todo) {
    if filter == Some(Active) then !t.completed
    else if filter == Some(Completed) then t.completed
    else true
  }

  /** The `orderBy('todo.createdAt', 'DESC')` order. */
  predicate NewestFirst(s: seq<Todo>) {
    forall i, j :: 0 <= i < j < |s| ==> s[i].createdAt >= s[j].createdAt
  }

  /**
    `r` is an answer of `findAll(filter)` on `store`: exactly the matching rows, each once,
    newest first (rows created at the same time may come in any order).
   */
  predicate IsListing(store: Store, filter: Option<Filter>, r: seq<Todo>) {
    && UniqueIds(r)
    && NewestFirst(r)
    && (forall i :: 0 <= i < |r| ==> r[i].id in store && store[r[i].id] == r[i] && ServerMatches(filter, r[i]))
    && (forall id :: id in store && ServerMatches(filter, store[id]) ==> store[id] in r)
  }

  /** Places `t` into a newest-first list before the first entry that is not newer than it. */
  function InsertNewestFirst(s: seq<Todo>, t: Todo): (r: seq<Todo>)
    ensures multiset(r) == multiset(s) + multiset{t}
  {
    if s == [] || t.createdAt >= s[0].createdAt then
      [t] + s
    else
      assert s == [s[0]] + s[1..];
      [s[0]] + InsertNewestFirst(s[1..], t)
  }

  /** Insertion adds `t` and keeps every entry. */
  lemma InsertMembers(s: seq<Todo>, t: Todo)
    ensures forall x :: x in InsertNewestFirst(s, t) <==> x in s || x == t
  {
    var r := InsertNewestFirst(s, t);
    forall x ensures x in r <==> x in s || x == t {
      assert x in r <==> x in multiset(r);
      assert x in s <==> x in multiset(s);
    }
  }

  /** Insertion keeps a list newest first. */
  lemma {:induction false} InsertKeepsOrder(s: seq<Todo>, t: Todo)
    requires NewestFirst(s)
    ensures NewestFirst(InsertNewestFirst(s, t))
  {
    if s == [] || t.createdAt >= s[0].createdAt {
    } else {
      var rest := InsertNewestFirst(s[1..], t);
      InsertKeepsOrder(s[1..], t);
      InsertMembers(s[1..], t);
      var r := [s[0]] + rest;
      forall i, j | 0 <= i < j < |r| ensures r[i].createdAt >= r[j].createdAt {
        if i == 0 {
          assert r[j] in rest;
        }
      }
    }
  }

  /** Insertion of an item whose id is new keeps ids unique. */
  lemma {:induction false} InsertKeepsUnique(s: seq<Todo>, t: Todo)
    requires UniqueIds(s) && forall x :: x in s ==> x.id != t.id
    ensures UniqueIds(InsertNewestFirst(s, t))
  {
    if s == [] || t.createdAt >= s[0].createdAt {
      var r := [t] + s;
      forall i, j | 0 <= i < j < |r| ensures r[i].id != r[j].id {
        if i == 0 {
          assert r[j] in s;
        }
      }
    } else {
      var rest := InsertNewestFirst(s[1..], t);
      InsertKeepsUnique(s[1..], t);
      InsertMembers(s[1..], t);
      var r := [s[0]] + rest;
      forall i, j | 0 <= i < j < |r| ensures r[i].id != r[j].id {
        if i == 0 {
          assert r[j] in rest;
          if r[j] != t {
            var k :| 1 <= k < |s| && s[k] == r[j];
          }
        }
      }
    }
  }

  /** `findOne`: the row under `id`, or NotFound exactly when there is none. */
  function FindOne(store: Store, id: Id): (r: Result<Todo, ServiceError>)
    ensures r.Failure? <==> id !in store
    ensures r.Failure? ==> r.error == NotFound(id)
    ensures r.Success? ==> r.value == store[id]
  {
    if id in store then Success(store[id]) else Failure(NotFound(id))
  }

  function CompletedIds(store: Store): set<Id> {
    set id | id in store && store[id].completed
  }

  function ActiveIds(store: Store): set<Id> {
    set id | id in store && !store[id].completed
  }

  /** Every row is either completed or active, never both. */
  lemma PartitionCount(store: Store)
    ensures |CompletedIds(store)| + |ActiveIds(store)| == |store|
  {
    assert CompletedIds(store) + ActiveIds(store) == store.Keys;
    assert CompletedIds(store) * ActiveIds(store) == {};
  }

  /**
    `getStats`: `total` counts the rows, `completed` the completed ones, and `active`, computed
    as their difference, is exactly the number of rows that are not completed.
   */
  function GetStats(store: Store): (r: Stats)
    ensures r.total == |store| && r.completed == |CompletedIds(store)|
    ensures r.active == |ActiveIds(store)| && r.completed + r.active == r.total
    ensures 0 <= r.completed <= r.total && 0 <= r.active
  {
    PartitionCount(store);
    var total := |store|;
    var completed := |CompletedIds(store)|;
    Stats(total, completed, total - completed)
  }

  // ----- store transformations ------------------------------------------------------------

  /** `Object.assign(todo, dto)` followed by a save at time `now`: only the fields present change. */
  function Assign(t: Todo, dto: UpdateTodoDto, now: nat): (r: Todo)
    ensures r.id == t.id && r.createdAt == t.createdAt && r.updatedAt == now
    ensures r.text == (if dto.text.Some? then dto.text.value else t.text)
    ensures r.completed == (if dto.completed.Some? then dto.completed.value else t.completed)
    ensures r.priority == (if dto.priority.Some? then dto.priority.value else t.priority)
    ensures ValidTodo(t) && (dto.text.Some? ==> |dto.text.value| <= MaxTextLength) ==> ValidTodo(r)
  {
    t.(text := if dto.text.Some? then dto.text.value else t.text,
       completed := if dto.completed.Some? then dto.completed.value else t.completed,
       priority := if dto.priority.Some? then dto.priority.value else t.priority,
       updatedAt := now)
  }

  /** `delete({ completed: true })`: exactly the active rows remain, unchanged. */
  function WithoutCompleted(store: Store): (r: Store)
    ensures r.Keys == ActiveIds(store)
    ensures forall id :: id in r ==> r[id] == store[id]
  {
    map id | id in store && !store[id].completed :: store[id]
  }

  /** `todos.every(todo => todo.completed)`. */
  predicate AllCompleted(store: Store) {
    forall id :: id in store ==> store[id].completed
  }

  /** `update({}, { completed: c })` at time `now`: every row gets `c`; nothing else but `updatedAt` changes. */
  function SetAllCompleted(store: Store, c: bool, now: nat): (r: Store)
    ensures r.Keys == store.Keys
    ensures forall id :: id in r ==> r[id] == store[id].(completed := c, updatedAt := now)
  {
    map id | id in store :: store[id].(completed := c, updatedAt := now)
  }

  /** The store after `toggleAll`: every row takes the negation of "all rows were completed". */
  function Toggled(store: Store, now: nat): (r: Store)
    ensures r.Keys == store.Keys
    ensures forall id :: id in r ==> r[id].completed == !AllCompleted(store)
    ensures forall id :: id in r ==>
      r[id].id == store[id].id && r[id].text == store[id].text && r[id].priority == store[id].priority
      && r[id].createdAt == store[id].createdAt && r[id].updatedAt == now
  {
    SetAllCompleted(store, !AllCompleted(store), now)
  }

  /** All rows share one completion state. */
  predicate Uniform(store: Store) {
    AllCompleted(store) || forall id :: id in store ==> !store[id].completed
  }

  /**
    Two `toggleAll` calls give every row back its original `completed` value exactly when the
    rows started in one shared state; from a mixed state the first call completes everything
    and the second makes everything active.
   */
  lemma ToggleTwice(store: Store, now1: nat, now2: nat)
    ensures (forall id :: id in store ==> Toggled(Toggled(store, now1), now2)[id].completed == store[id].completed)
            <==> Uniform(store)
    ensures !Uniform(store) ==> forall id :: id in store ==> !Toggled(Toggled(store, now1), now2)[id].completed
  {
    var once := Toggled(store, now1);
    var twice := Toggled(once, now2);
    if !Uniform(store) {
      var c :| c in store && store[c].completed;
      var a :| a in store && !store[a].completed;
      assert !once[a].completed == AllCompleted(store);
      assert AllCompleted(once);
      assert !twice[c].completed;
    } else if AllCompleted(store) && store != map[] {
      var k :| k in store;
      assert !once[k].completed;
      assert !AllCompleted(once);
    } else if store != map[] {
      var k :| k in store;
      assert once[k].completed;
    }
  }

  /** After clearing completed rows no row is completed and the total is the former active count. */
  lemma ClearCompletedStats(store: Store)
    ensures GetStats(WithoutCompleted(store)) == Stats(GetStats(store).active, 0, GetStats(store).active)
  {
    var r := WithoutCompleted(store);
    assert CompletedIds(r) == {};
    assert |r| == |r.Keys|;
  }

  /** The `DELETE /todos` route: `type === 'all'` clears everything, any other value only completed rows. */
  function ClearRoute(kind: Option<string>): (r: BulkDeleteType)
    ensures r == DeleteAll <==> kind == Some("all")
  {
    if kind == Some("all") then DeleteAll else DeleteCompleted
  }

  /** The store change that goes with an item event. */
  predicate Emits(store: Store, e: DomainEvent, store': Store) {
    match e
    case Created(t) => t.id !in store && ValidTodo(t) && store' == store[t.id := t]
    case Updated(t) => t.id in store && ValidTodo(t) && store' == store[t.id := t]
    case Deleted(id) => id in store && store' == store - {id}
    case _ => false
  }

  // ----- the service --------------------------------------------------------------------

  class TodoService {

    /** The `todos` table, keyed by primary key. */
    var store: Store
    /** The domain events handed to the gateway, in order. */
    var events: seq<DomainEvent>

    ghost predicate Valid()
      reads this
    {
      KeyedById(store)
    }

    constructor ()
      ensures Valid() && store == map[] && events == []
    {
      store := map[];
      events := [];
    }

    /**
      `create`: inserts a row under the freshly generated key `id`, then emits `todoCreated`
      with the saved row and returns it.
     */
    method Create(dto: CreateTodoDto, id: Id, now: nat) returns (saved: Todo)
      requires Valid() && id !in store && |dto.text| <= MaxTextLength
      modifies this
      ensures Valid()
      ensures saved == NewTodo(id, dto.text, dto.priority, now)
      ensures store == old(store)[id := saved]
      ensures events == old(events) + [Created(saved)]
      ensures Emits(old(store), Created(saved), store)
    {
      saved := NewTodo(id, dto.text, dto.priority, now);
      store := store[id := saved];
      events := events + [Created(saved)];
    }

    /** `findAll`: the rows matching `filter`, newest first. */
    method FindAll(filter: Option<Filter>) returns (r: seq<Todo>)
      requires Valid()
      ensures IsListing(store, filter, r)
    {
      r := [];
      var pending := store.Keys;
      while pending != {}
        invariant pending <= store.Keys
        invariant UniqueIds(r) && NewestFirst(r)
        invariant forall i :: 0 <= i < |r| ==>
          r[i].id in store && r[i].id !in pending && store[r[i].id] == r[i] && ServerMatches(filter, r[i])
        invariant forall id :: id in store && id !in pending && ServerMatches(filter, store[id]) ==> store[id] in r
        decreases pending
      {
        var id :| id in pending;
        if ServerMatches(filter, store[id]) {
          forall x | x in r ensures x.id != store[id].id {
            var i :| 0 <= i < |r| && r[i] == x;
          }
          var r' := InsertNewestFirst(r, store[id]);
          InsertMembers(r, store[id]);
          InsertKeepsOrder(r, store[id]);
          InsertKeepsUnique(r, store[id]);
          forall i | 0 <= i < |r'|
            ensures r'[i].id in store && r'[i].id !in pending - {id} && store[r'[i].id] == r'[i]
            ensures ServerMatches(filter, r'[i])
          {
            assert r'[i] in r || r'[i] == store[id];
            if r'[i] != store[id] {
              var j :| 0 <= j < |r| && r[j] == r'[i];
            }
          }
          r := r';
        }
        pending := pending - {id};
      }
    }

    /**
      `update`: NotFound, with no change and no event, when `id` has no row; otherwise only the
      fields present in `dto` are overwritten, the row is saved and `todoUpdated` is emitted.
     */
    method Update(id: Id, dto: UpdateTodoDto, now: nat) returns (r: Result<Todo, ServiceError>)
      requires Valid() && (dto.text.Some? ==> |dto.text.value| <= MaxTextLength)
      modifies this
      ensures Valid()
      ensures id !in old(store) ==> r == Failure(NotFound(id)) && store == old(store) && events == old(events)
      ensures id in old(store) ==>
        && r == Success(Assign(old(store)[id], dto, now))
        && store == old(store)[id := r.value]
        && events == old(events) + [Updated(r.value)]
        && Emits(old(store), Updated(r.value), store)
    {
      var found := FindOne(store, id);
      if found.Failure? {
        return Failure(found.error);
      }
      var updated := Assign(found.value, dto, now);
      store := store[id := updated];
      events := events + [Updated(updated)];
      r := Success(updated);
    }

    /**
      `remove`: NotFound, with no event, when no row was affected; otherwise the row is gone and
      `todoDeleted(id)` is emitted once.
     */
    method Remove(id: Id) returns (r: Result<(), ServiceError>)
      requires Valid()
      modifies this
      ensures Valid()
      ensures id !in old(store) ==> r == Failure(NotFound(id)) && store == old(store) && events == old(events)
      ensures id in old(store) ==> r == Success(()) && store == old(store) - {id} && events == old(events) + [Deleted(id)]
      ensures id in old(store) ==> Emits(old(store), Deleted(id), store)
    {
      var affected := if id in store then 1 else 0;
      store := store - {id};
      if affected == 0 {
        return Failure(NotFound(id));
      }
      events := events + [Deleted(id)];
      r := Success(());
    }

    /** `clearCompleted`: deletes exactly the completed rows, then always emits a bulk delete of type `completed`. */
    method ClearCompleted()
      requires Valid()
      modifies this
      ensures Valid()
      ensures store == WithoutCompleted(old(store))
      ensures events == old(events) + [BulkDeleted(DeleteCompleted)]
    {
      store := WithoutCompleted(store);
      events := events + [BulkDeleted(DeleteCompleted)];
    }

    /** `clearAll`: empties the table, then emits a bulk delete of type `all`. */
    method ClearAll()
      requires Valid()
      modifies this
      ensures Valid()
      ensures store == map[]
      ensures events == old(events) + [BulkDeleted(DeleteAll)]
    {
      store := map[];
      events := events + [BulkDeleted(DeleteAll)];
    }

    /**
      `toggleAll`: every row takes the negation of "all rows were completed", then the full
      listing is emitted as a bulk update and returned.
     */
    method ToggleAll(now: nat) returns (updated: seq<Todo>)
      requires Valid()
      modifies this
      ensures Valid()
      ensures store == Toggled(old(store), now)
      ensures IsListing(store, None, updated)
      ensures events == old(events) + [BulkUpdated(updated)]
    {
      var allCompleted := AllCompleted(store);
      store := SetAllCompleted(store, !allCompleted, now);
      updated := FindAll(None);
      events := events + [BulkUpdated(updated)];
    }
  }
}
