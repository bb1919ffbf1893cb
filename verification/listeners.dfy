/**
  The listener registration of the composable (vue-todo-app/src/composables/useTodos.ts):
  `setupSocketListeners` registers one new callback per event on the socket service, and
  `removeSocketListeners` calls `off` for the same events.
 */
module Listeners {

  import opened Protocol
  import opened Socket

  /** The listeners' events, in the order `setupSocketListeners` registers them. */
  const ListenedEvents: seq<EventName> :=
    [TodoCreated, TodoUpdated, TodoDeleted, TodosBulkUpdated, TodosBulkDeleted, TodoEditStart, TodoEditEnd, TodoEditChange]

  /** `on` for each event of `es` with the matching handle of `hs`, in order. */
  function SubscribeAll(reg: Registry, es: seq<EventName>, hs: seq<Handle>): Registry
    requires |es| == |hs|
  {
    if es == [] then reg
    else Subscribe(SubscribeAll(reg, es[..|es| - 1], hs[..|hs| - 1]), es[|es| - 1], hs[|hs| - 1])
  }

  /** `off` for each event of `es` with the matching handle of `hs`, in order. */
  function UnsubscribeAll(reg: Registry, es: seq<EventName>, hs: seq<Handle>): Registry
    requires |es| == |hs|
  {
    if es == [] then reg
    else Unsubscribe(UnsubscribeAll(reg, es[..|es| - 1], hs[..|hs| - 1]), es[|es| - 1], hs[|hs| - 1])
  }

  /** One more `on` extends the fold by one event. */
  lemma SubscribeAllStep(reg: Registry, es: seq<EventName>, hs: seq<Handle>, k: nat)
    requires |es| == |hs| && k < |es|
    ensures SubscribeAll(reg, es[..k + 1], hs[..k + 1]) == Subscribe(SubscribeAll(reg, es[..k], hs[..k]), es[k], hs[k])
  {
    assert es[..k + 1][..k] == es[..k];
    assert hs[..k + 1][..k] == hs[..k];
  }

  /** One more `off` extends the fold by one event. */
  lemma UnsubscribeAllStep(reg: Registry, es: seq<EventName>, hs: seq<Handle>, k: nat)
    requires |es| == |hs| && k < |es|
    ensures UnsubscribeAll(reg, es[..k + 1], hs[..k + 1]) == Unsubscribe(UnsubscribeAll(reg, es[..k], hs[..k]), es[k], hs[k])
  {
    assert es[..k + 1][..k] == es[..k];
    assert hs[..k + 1][..k] == hs[..k];
  }

  predicate Distinct<T(==)>(s: seq<T>) {
    forall i, j :: 0 <= i < j < |s| ==> s[i] != s[j]
  }

  /** A callback registered for no event. */
  predicate Unregistered(reg: Registry, h: Handle) {
    forall e :: h !in Listeners(reg, e)
  }

  /** `setupSocketListeners`: one new callback per event, registered in order. */
  method SetupSocketListeners(socket: SocketService, hs: seq<Handle>)
    requires |hs| == 8
    modifies socket`listeners
    ensures socket.listeners == SubscribeAll(old(socket.listeners), ListenedEvents, hs)
  {
    ghost var reg := socket.listeners;
    SubscribeAllStep(reg, ListenedEvents, hs, 0);
    socket.On(ListenedEvents[0], hs[0]);
    assert socket.listeners == SubscribeAll(reg, ListenedEvents[..1], hs[..1]);
    SubscribeAllStep(reg, ListenedEvents, hs, 1);
    socket.On(ListenedEvents[1], hs[1]);
    assert socket.listeners == SubscribeAll(reg, ListenedEvents[..2], hs[..2]);
    SubscribeAllStep(reg, ListenedEvents, hs, 2);
    socket.On(ListenedEvents[2], hs[2]);
    assert socket.listeners == SubscribeAll(reg, ListenedEvents[..3], hs[..3]);
    SubscribeAllStep(reg, ListenedEvents, hs, 3);
    socket.On(ListenedEvents[3], hs[3]);
    assert socket.listeners == SubscribeAll(reg, ListenedEvents[..4], hs[..4]);
    SubscribeAllStep(reg, ListenedEvents, hs, 4);
    socket.On(ListenedEvents[4], hs[4]);
    assert socket.listeners == SubscribeAll(reg, ListenedEvents[..5], hs[..5]);
    SubscribeAllStep(reg, ListenedEvents, hs, 5);
    socket.On(ListenedEvents[5], hs[5]);
    assert socket.listeners == SubscribeAll(reg, ListenedEvents[..6], hs[..6]);
    SubscribeAllStep(reg, ListenedEvents, hs, 6);
    socket.On(ListenedEvents[6], hs[6]);
    assert socket.listeners == SubscribeAll(reg, ListenedEvents[..7], hs[..7]);
    SubscribeAllStep(reg, ListenedEvents, hs, 7);
    socket.On(ListenedEvents[7], hs[7]);
    assert socket.listeners == SubscribeAll(reg, ListenedEvents[..8], hs[..8]);
    assert ListenedEvents[..8] == ListenedEvents && hs[..8] == hs;
  }

  /**
    `removeSocketListeners` as written: `off` for each event with a callback created on the
    spot (`spare`), which was never registered.
   */
  method RemoveSocketListeners(socket: SocketService, spare: seq<Handle>)
    requires |spare| == 8
    modifies socket`listeners
    ensures socket.listeners == UnsubscribeAll(old(socket.listeners), ListenedEvents, spare)
  {
    ghost var reg := socket.listeners;
    UnsubscribeAllStep(reg, ListenedEvents, spare, 0);
    socket.Off(ListenedEvents[0], spare[0]);
    assert socket.listeners == UnsubscribeAll(reg, ListenedEvents[..1], spare[..1]);
    UnsubscribeAllStep(reg, ListenedEvents, spare, 1);
    socket.Off(ListenedEvents[1], spare[1]);
    assert socket.listeners == UnsubscribeAll(reg, ListenedEvents[..2], spare[..2]);
    UnsubscribeAllStep(reg, ListenedEvents, spare, 2);
    socket.Off(ListenedEvents[2], spare[2]);
    assert socket.listeners == UnsubscribeAll(reg, ListenedEvents[..3], spare[..3]);
    UnsubscribeAllStep(reg, ListenedEvents, spare, 3);
    socket.Off(ListenedEvents[3], spare[3]);
    assert socket.listeners == UnsubscribeAll(reg, ListenedEvents[..4], spare[..4]);
    UnsubscribeAllStep(reg, ListenedEvents, spare, 4);
    socket.Off(ListenedEvents[4], spare[4]);
    assert socket.listeners == UnsubscribeAll(reg, ListenedEvents[..5], spare[..5]);
    UnsubscribeAllStep(reg, ListenedEvents, spare, 5);
    socket.Off(ListenedEvents[5], spare[5]);
    assert socket.listeners == UnsubscribeAll(reg, ListenedEvents[..6], spare[..6]);
    UnsubscribeAllStep(reg, ListenedEvents, spare, 6);
    socket.Off(ListenedEvents[6], spare[6]);
    assert socket.listeners == UnsubscribeAll(reg, ListenedEvents[..7], spare[..7]);
    UnsubscribeAllStep(reg, ListenedEvents, spare, 7);
    socket.Off(ListenedEvents[7], spare[7]);
    assert socket.listeners == UnsubscribeAll(reg, ListenedEvents[..8], spare[..8]);
    assert ListenedEvents[..8] == ListenedEvents && spare[..8] == spare;
  }

  /** Fewer events: a prefix of distinct events is distinct. */
  lemma DistinctPrefix<T>(s: seq<T>, n: nat)
    requires Distinct(s) && n <= |s|
    ensures Distinct(s[..n])
  {
  }

  /**
    After registering distinct events each with its own callback, every event of the list
    has gained exactly its callback, at the end of its listeners.
   */
  lemma {:induction false} SubscribeAllEffect(reg: Registry, es: seq<EventName>, hs: seq<Handle>, k: nat)
    requires |es| == |hs| && Distinct(es) && k < |es|
    ensures Listeners(SubscribeAll(reg, es, hs), es[k]) == Listeners(reg, es[k]) + [hs[k]]
  {
    var n := |es| - 1;
    var prior := SubscribeAll(reg, es[..n], hs[..n]);
    assert SubscribeAll(reg, es, hs) == Subscribe(prior, es[n], hs[n]);
    if k == n {
      SubscribeAllOthers(reg, es[..n], hs[..n], es[n]);
    } else {
      DistinctPrefix(es, n);
      SubscribeAllEffect(reg, es[..n], hs[..n], k);
      assert es[..n][k] == es[k] && hs[..n][k] == hs[k];
    }
  }

  /** Registering callbacks for other events leaves an event's listeners alone. */
  lemma {:induction false} SubscribeAllOthers(reg: Registry, es: seq<EventName>, hs: seq<Handle>, e: EventName)
    requires |es| == |hs| && e !in es
    ensures Listeners(SubscribeAll(reg, es, hs), e) == Listeners(reg, e)
  {
    if es != [] {
      var n := |es| - 1;
      assert e != es[n];
      assert e !in es[..n];
      SubscribeAllOthers(reg, es[..n], hs[..n], e);
    }
  }

  /**
    `off` for distinct events: each event of the list loses the first occurrence of its own
    callback, and only that.
   */
  lemma {:induction false} UnsubscribeAllEffect(reg: Registry, es: seq<EventName>, hs: seq<Handle>, k: nat)
    requires |es| == |hs| && Distinct(es) && k < |es|
    ensures Listeners(UnsubscribeAll(reg, es, hs), es[k]) == RemoveFirst(Listeners(reg, es[k]), hs[k])
  {
    var n := |es| - 1;
    var prior := UnsubscribeAll(reg, es[..n], hs[..n]);
    assert UnsubscribeAll(reg, es, hs) == Unsubscribe(prior, es[n], hs[n]);
    if k == n {
      UnsubscribeAllOthers(reg, es[..n], hs[..n], es[n]);
      UnsubscribeRemovesFirst(prior, es[n], hs[n]);
    } else {
      DistinctPrefix(es, n);
      UnsubscribeAllEffect(reg, es[..n], hs[..n], k);
      assert es[..n][k] == es[k] && hs[..n][k] == hs[k];
      UnsubscribeFrame(prior, es[n], hs[n]);
    }
  }

  /** Unregistering callbacks of other events leaves an event's listeners alone. */
  lemma {:induction false} UnsubscribeAllOthers(reg: Registry, es: seq<EventName>, hs: seq<Handle>, e: EventName)
    requires |es| == |hs| && e !in es
    ensures Listeners(UnsubscribeAll(reg, es, hs), e) == Listeners(reg, e)
  {
    if es != [] {
      var n := |es| - 1;
      assert e != es[n];
      assert e !in es[..n];
      UnsubscribeAllOthers(reg, es[..n], hs[..n], e);
      UnsubscribeFrame(UnsubscribeAll(reg, es[..n], hs[..n]), es[n], hs[n]);
    }
  }

  /** `off` with callbacks that were never registered changes nothing at all. */
  lemma {:induction false} UnsubscribeAllUnregistered(reg: Registry, es: seq<EventName>, hs: seq<Handle>)
    requires |es| == |hs|
    requires forall i :: 0 <= i < |hs| ==> Unregistered(reg, hs[i])
    ensures UnsubscribeAll(reg, es, hs) == reg
  {
    if es != [] {
      var n := |es| - 1;
      UnsubscribeAllUnregistered(reg, es[..n], hs[..n]);
      assert Unregistered(reg, hs[n]);
      UnsubscribeEffect(reg, es[n], hs[n]);
    }
  }

  /** The eight events are distinct. */
  lemma ListenedEventsDistinct()
    ensures Distinct(ListenedEvents)
  {
  }

  /**
    As written, unmounting passes callbacks created on the spot, so it removes nothing: after
    `setupSocketListeners` and `removeSocketListeners` every event still has the mount's
    callback, and a second mount registers a second one beside it.
   */
  lemma UnmountKeepsListeners(reg: Registry, hs: seq<Handle>, spare: seq<Handle>, again: seq<Handle>, k: nat)
    requires |hs| == 8 && |spare| == 8 && |again| == 8 && k < 8
    requires forall i :: 0 <= i < 8 ==> Unregistered(reg, spare[i])
    requires forall i, j :: 0 <= i < 8 && 0 <= j < 8 ==> spare[i] != hs[j]
    ensures Listeners(UnsubscribeAll(SubscribeAll(reg, ListenedEvents, hs), ListenedEvents, spare), ListenedEvents[k])
      == Listeners(reg, ListenedEvents[k]) + [hs[k]]
    ensures Listeners(SubscribeAll(UnsubscribeAll(SubscribeAll(reg, ListenedEvents, hs), ListenedEvents, spare), ListenedEvents, again), ListenedEvents[k])
      == Listeners(reg, ListenedEvents[k]) + [hs[k], again[k]]
  {
    var E := ListenedEvents;
    ListenedEventsDistinct();
    var mounted := SubscribeAll(reg, E, hs);
    assert UnsubscribeAll(mounted, E, spare) == mounted by {
      MountedLeavesOthersUnregistered(reg, hs, spare);
      UnsubscribeAllUnregistered(mounted, E, spare);
    }
    SubscribeAllEffect(reg, E, hs, k);
    SubscribeAllEffect(mounted, E, again, k);
  }

  /** Callbacks other than the mount's stay unregistered through the mount. */
  lemma MountedLeavesOthersUnregistered(reg: Registry, hs: seq<Handle>, spare: seq<Handle>)
    requires |hs| == 8 && |spare| == 8
    requires forall i :: 0 <= i < 8 ==> Unregistered(reg, spare[i])
    requires forall i, j :: 0 <= i < 8 && 0 <= j < 8 ==> spare[i] != hs[j]
    ensures forall i :: 0 <= i < 8 ==> Unregistered(SubscribeAll(reg, ListenedEvents, hs), spare[i])
  {
    var E := ListenedEvents;
    ListenedEventsDistinct();
    var mounted := SubscribeAll(reg, E, hs);
    forall i, e | 0 <= i < 8
      ensures spare[i] !in Listeners(mounted, e)
    {
      if e in E {
        var m :| 0 <= m < 8 && E[m] == e;
        SubscribeAllEffect(reg, E, hs, m);
      } else {
        SubscribeAllOthers(reg, E, hs, e);
      }
    }
  }

  /**
    What unmounting evidently intends: removing the very callbacks the mount registered
    gives every event back the listeners it had before the mount.
   */
  lemma UnmountRestoresListeners(reg: Registry, hs: seq<Handle>, e: EventName)
    requires |hs| == 8
    requires forall i :: 0 <= i < 8 ==> Unregistered(reg, hs[i])
    ensures Listeners(UnsubscribeAll(SubscribeAll(reg, ListenedEvents, hs), ListenedEvents, hs), e) == Listeners(reg, e)
  {
    var E := ListenedEvents;
    ListenedEventsDistinct();
    var mounted := SubscribeAll(reg, E, hs);
    if e in E {
      var m :| 0 <= m < 8 && E[m] == e;
      UnsubscribeAllEffect(mounted, E, hs, m);
      SubscribeAllEffect(reg, E, hs, m);
      assert Unregistered(reg, hs[m]);
      RemoveAppended(Listeners(reg, e), hs[m]);
    } else {
      UnsubscribeAllOthers(mounted, E, hs, e);
      SubscribeAllOthers(reg, E, hs, e);
    }
  }
}
