/**
  How the client's list follows the server.  A list mirrors a store under a filter when its
  entries are exactly the stored items the filter admits, each once and as stored.  A reload
  produces a mirror, and every item event the service emits, carried by the gateway and
  patched in by the composable's listener, keeps one.  Presence relayed by the gateway never
  names the receiving connection as an editor.
 */
module Sync {

  import opened Wrappers
  import opened Entity
  import opened FilterDto
  import opened Protocol
  import opened Service
  import opened Gateway
  import opened Socket
  import opened Composable

  /** The list shows exactly the stored items admitted by the filter, each once, as stored. */
  predicate Mirrors(list: seq<Todo>, store: Store, f: Filter) {
    && UniqueIds(list)
    && (forall x :: x in list ==> x.id in store && store[x.id] == x && ShouldShow(f, x))
    && (forall id :: id in store && ShouldShow(f, store[id]) ==> store[id] in list)
  }

  /** The client's `shouldShow` admits exactly what the server's filtered query returns. */
  lemma FilterAgreement(f: Filter, t: Todo)
    ensures ShouldShow(f, t) <==> ServerMatches(Some(f), t)
  {
  }

  /** A successful load for the current filter is a mirror. */
  lemma LoadMirrors(store: Store, f: Filter, r: seq<Todo>)
    requires IsListing(store, Some(f), r)
    ensures Mirrors(r, store, f)
  {
    forall x | x in r
      ensures x.id in store && store[x.id] == x && ShouldShow(f, x)
    {
      var i :| 0 <= i < |r| && r[i] == x;
      FilterAgreement(f, x);
    }
    forall id | id in store && ShouldShow(f, store[id])
      ensures store[id] in r
    {
      FilterAgreement(f, store[id]);
    }
  }

  /** `create` emits `todoCreated` with the saved item and the matching store change. */
  lemma CreateEmits(store: Store, dto: CreateDto.CreateTodoDto, id: Id, now: nat)
    requires id !in store && |dto.text| <= MaxTextLength
    ensures Emits(store, Created(NewTodo(id, dto.text, dto.priority, now)), store[id := NewTodo(id, dto.text, dto.priority, now)])
  {
  }

  /** A successful `update` emits `todoUpdated` with the saved item and the matching store change. */
  lemma UpdateEmits(store: Store, id: Id, dto: UpdateDto.UpdateTodoDto, now: nat)
    requires KeyedById(store) && id in store && (dto.text.Some? ==> |dto.text.value| <= MaxTextLength)
    ensures Emits(store, Updated(Assign(store[id], dto, now)), store[id := Assign(store[id], dto, now)])
  {
  }

  /** A successful `remove` emits `todoDeleted` with the id and the matching store change. */
  lemma RemoveEmits(store: Store, id: Id)
    requires id in store
    ensures Emits(store, Deleted(id), store - {id})
  {
  }

  /** A `todoCreated` for a new item keeps a mirror of the store that gained it. */
  lemma CreatedKeepsMirror(list: seq<Todo>, store: Store, f: Filter, t: Todo)
    requires Mirrors(list, store, f) && t.id !in store
    ensures Mirrors(AfterCreated(list, f, t), store[t.id := t], f)
  {
    CreatedReconciles(list, f, t);
    assert forall x :: x in AfterCreated(list, f, t) ==> x == t || x in list;
  }

  /** A `todoUpdated` for a stored item keeps a mirror of the store holding its new version. */
  lemma UpdatedKeepsMirror(list: seq<Todo>, store: Store, f: Filter, t: Todo)
    requires Mirrors(list, store, f) && KeyedById(store) && t.id in store
    ensures Mirrors(AfterUpdated(list, f, t), store[t.id := t], f)
  {
    var r := AfterUpdated(list, f, t);
    assert UniqueIds(r) by {
      UpdatedReconciles(list, f, t);
    }
    forall x
      ensures x in r <==> (x == t && ShouldShow(f, t)) || (x in list && x.id != t.id)
    {
      UpdatedMembers(list, f, t, x);
    }
    MirrorWithUpdate(list, store, f, t, r);
  }

  /** A list holding the new version when it belongs, and every other entry of a mirror, mirrors the updated store. */
  lemma MirrorWithUpdate(list: seq<Todo>, store: Store, f: Filter, t: Todo, r: seq<Todo>)
    requires Mirrors(list, store, f) && KeyedById(store) && t.id in store && UniqueIds(r)
    requires forall x :: x in r <==> (x == t && ShouldShow(f, t)) || (x in list && x.id != t.id)
    ensures Mirrors(r, store[t.id := t], f)
  {
    var store' := store[t.id := t];
    forall id | id in store' && ShouldShow(f, store'[id])
      ensures store'[id] in r
    {
      if id != t.id {
        assert store[id] in list;
      }
    }
  }

  /** A `todoDeleted` keeps a mirror of the store without that id. */
  lemma DeletedKeepsMirror(list: seq<Todo>, store: Store, f: Filter, id: Id)
    requires Mirrors(list, store, f) && KeyedById(store)
    ensures Mirrors(AfterDeleted(list, id), store - {id}, f)
  {
    var r := AfterDeleted(list, id);
    assert UniqueIds(r) by {
      DeletedReconciles(list, f, id);
    }
    forall x | x in r
      ensures x.id != id && x in list
    {
      DeletedMembers(list, id, x);
    }
    forall k | k in store && k != id && ShouldShow(f, store[k])
      ensures store[k] in r
    {
      DeletedMembers(list, id, store[k]);
    }
  }

  /** Every item event keeps the store keyed by id. */
  lemma EmitsKeepsKeyed(store: Store, e: DomainEvent, store': Store)
    requires KeyedById(store) && Emits(store, e, store')
    ensures KeyedById(store')
  {
  }

  /** What the composable's listener does with the gateway's message for `e`. */
  function Deliver(list: seq<Todo>, f: Filter, e: DomainEvent): seq<Todo> {
    var m := ToMessage(e);
    Reconcile(list, f, m.event, Unwrap(m))
  }

  /**
    One item event, emitted by the service, broadcast by the gateway, forwarded by the
    socket service and patched in by the listener, keeps the client's list a mirror.
   */
  lemma DeliveryKeepsMirror(list: seq<Todo>, store: Store, f: Filter, e: DomainEvent, store': Store)
    requires Mirrors(list, store, f) && KeyedById(store) && Emits(store, e, store')
    ensures Mirrors(Deliver(list, f, e), store', f)
  {
    match e
    case Created(t) => CreatedKeepsMirror(list, store, f, t);
    case Updated(t) => UpdatedKeepsMirror(list, store, f, t);
    case Deleted(id) => DeletedKeepsMirror(list, store, f, id);
  }

  /** The stores a run of the service passes through, one item event per step. */
  predicate Trace(stores: seq<Store>, es: seq<DomainEvent>) {
    |stores| == |es| + 1 && forall i :: 0 <= i < |es| ==> Emits(stores[i], es[i], stores[i + 1])
  }

  /** The client list after the events are delivered in order. */
  function Replay(list: seq<Todo>, f: Filter, es: seq<DomainEvent>): seq<Todo>
    decreases |es|
  {
    if es == [] then list else Replay(Deliver(list, f, es[0]), f, es[1..])
  }

  /**
    Convergence: starting from a mirror, delivering the service's item events in the order
    it emitted them leaves a mirror of the final store.
   */
  lemma {:induction false} ReplayMirrors(list: seq<Todo>, f: Filter, stores: seq<Store>, es: seq<DomainEvent>)
    requires Trace(stores, es) && KeyedById(stores[0]) && Mirrors(list, stores[0], f)
    ensures Mirrors(Replay(list, f, es), stores[|es|], f)
    decreases |es|
  {
    if es != [] {
      EmitsKeepsKeyed(stores[0], es[0], stores[1]);
      DeliveryKeepsMirror(list, stores[0], f, es[0], stores[1]);
      assert Trace(stores[1..], es[1..]) by {
        forall i | 0 <= i < |es| - 1
          ensures Emits(stores[1..][i], es[1..][i], stores[1..][i + 1])
        {
          assert Emits(stores[i + 1], es[i + 1], stores[i + 2]);
        }
      }
      ReplayMirrors(Deliver(list, f, es[0]), f, stores[1..], es[1..]);
    }
  }

  /** The presence map after the presence messages are handled in order. */
  function PresenceAfter(m: Editing, msgs: seq<Message>): Editing
    requires forall i :: 0 <= i < |msgs| ==> WellFormed(msgs[i])
    decreases |msgs|
  {
    if msgs == [] then m
    else PresenceAfter(ApplyPresence(m, msgs[0].event, Unwrap(msgs[0])), msgs[1..])
  }

  /** No entry names `me` as the editor. */
  predicate NoSelf(m: Editing, me: ConnId) {
    forall id :: id in m ==> m[id].userId != me
  }

  /**
    A client whose inbox never attributes presence to itself, as the gateway's relay
    guarantees, never lists itself as an editor.
   */
  lemma {:induction false} PresenceNeverSelf(m: Editing, msgs: seq<Message>, me: ConnId)
    requires forall i :: 0 <= i < |msgs| ==> WellFormed(msgs[i])
    requires forall i :: 0 <= i < |msgs| && IsPresence(msgs[i].event) ==> Editor(msgs[i]) != me
    requires NoSelf(m, me)
    ensures NoSelf(PresenceAfter(m, msgs), me)
    decreases |msgs|
  {
    if msgs != [] {
      var m' := ApplyPresence(m, msgs[0].event, Unwrap(msgs[0]));
      assert NoSelf(m', me);
      PresenceNeverSelf(m', msgs[1..], me);
    }
  }

  /**
    A client handling its own inbox from a gateway state that keeps `NoEcho` never lists
    itself as an editor.
   */
  lemma ClientNeverListsItself(inboxes: Inboxes, me: ConnId, m: Editing)
    requires NoEcho(inboxes) && AllWellFormed(inboxes) && me in inboxes && NoSelf(m, me)
    ensures NoSelf(PresenceAfter(m, inboxes[me]), me)
  {
    PresenceNeverSelf(m, inboxes[me], me);
  }

  /**
    A peer's editing session as another client sees it: after the start the item shows that
    peer with no text, each change by that peer shows the typed text, a change attributed to
    anyone else is ignored, and the end removes the entry.
   */
  lemma EditSessionSeenByPeer(m: Editing, todoId: Id, editor: ConnId, other: ConnId, text: string)
    requires other != editor
    ensures EditStarted(m, todoId, editor)[todoId] == EditEntry(editor, None)
    ensures EditChanged(EditStarted(m, todoId, editor), todoId, text, editor)[todoId] == EditEntry(editor, Some(text))
    ensures EditChanged(EditStarted(m, todoId, editor), todoId, text, other) == EditStarted(m, todoId, editor)
    ensures EditEnded(EditChanged(EditStarted(m, todoId, editor), todoId, text, editor), todoId) == m - {todoId}
  {
  }
}
