/**
  The client's socket service (vue-todo-app/src/services/socket.ts): a registry from event
  name to the callbacks registered for it, the forwarding of server messages to those
  callbacks, and the presence senders.  A callback is an opaque handle compared by identity,
  as `indexOf` compares function objects.
 */
module Socket {

  import opened Entity
  import opened Protocol

  /** The identity of a callback function object. */
  type Handle = nat

  type Registry = map<EventName, seq<Handle>>

  /** One call of a callback with its argument. */
  datatype Invocation = Invocation(callback: Handle, arg: Payload)

  /** The callbacks that run for `e`; an event without a list has none. */
  function Listeners(reg: Registry, e: EventName): seq<Handle> {
    if e in reg then reg[e] else []
  }

  /** `on`: appends `cb` to `e`'s list, creating the list if absent. */
  function Subscribe(reg: Registry, e: EventName, cb: Handle): Registry {
    reg[e := Listeners(reg, e) + [cb]]
  }

  /** `on` adds `cb` at the end of `e`'s listeners and changes no other event. */
  lemma SubscribeEffect(reg: Registry, e: EventName, cb: Handle)
    ensures Listeners(Subscribe(reg, e, cb), e) == Listeners(reg, e) + [cb]
    ensures Subscribe(reg, e, cb).Keys == reg.Keys + {e}
    ensures forall e' :: e' != e ==> Listeners(Subscribe(reg, e, cb), e') == Listeners(reg, e')
  {
  }

  /** The list without its first occurrence of `x`. */
  function RemoveFirst(s: seq<Handle>, x: Handle): (r: seq<Handle>)
    ensures multiset(r) == multiset(s) - multiset{x}
    ensures x !in s ==> r == s
  {
    if s == [] then []
    else
      assert s == [s[0]] + s[1..];
      if s[0] == x then s[1..] else [s[0]] + RemoveFirst(s[1..], x)
  }

  /** Removing at the first occurrence of `x` is `RemoveFirst`. */
  lemma {:induction false} RemoveFirstAt(s: seq<Handle>, x: Handle, i: nat)
    requires i < |s| && s[i] == x && x !in s[..i]
    ensures RemoveFirst(s, x) == s[..i] + s[i + 1..]
  {
    if i > 0 {
      var t := s[1..];
      assert x !in t[..i - 1] by {
        assert t[..i - 1] == s[1..i];
      }
      assert s[0] != x by {
        assert s[..i][0] == s[0];
      }
      RemoveFirstAt(t, x, i - 1);
      assert s[..i] + s[i + 1..] == [s[0]] + (t[..i - 1] + t[i..]) by {
        assert s[..i] == [s[0]] + t[..i - 1];
        assert s[i + 1..] == t[i..];
      }
    }
  }

  /** `off`: removes the first entry identical to `cb` from `e`'s list, when there is one. */
  function Unsubscribe(reg: Registry, e: EventName, cb: Handle): Registry {
    if e in reg && cb in reg[e] then reg[e := RemoveFirst(reg[e], cb)] else reg
  }

  /**
    `off` removes one occurrence of `cb` from `e`'s listeners; an unregistered callback or
    an event without a list leaves the registry unchanged.
   */
  lemma UnsubscribeEffect(reg: Registry, e: EventName, cb: Handle)
    ensures cb !in Listeners(reg, e) ==> Unsubscribe(reg, e, cb) == reg
    ensures multiset(Listeners(Unsubscribe(reg, e, cb), e)) == multiset(Listeners(reg, e)) - multiset{cb}
  {
    if !(e in reg && cb in reg[e]) {
      assert cb !in multiset(Listeners(reg, e));
    }
  }

  /** On the event it names, `off` is `RemoveFirst` of that event's listeners. */
  lemma UnsubscribeRemovesFirst(reg: Registry, e: EventName, cb: Handle)
    ensures Listeners(Unsubscribe(reg, e, cb), e) == RemoveFirst(Listeners(reg, e), cb)
  {
  }

  /** `off` never adds or drops an event's list and never touches another event. */
  lemma UnsubscribeFrame(reg: Registry, e: EventName, cb: Handle)
    ensures Unsubscribe(reg, e, cb).Keys == reg.Keys
    ensures forall e' :: e' != e ==> Listeners(Unsubscribe(reg, e, cb), e') == Listeners(reg, e')
  {
  }

  /** Removing the first occurrence of a callback appended to a list without it gives the list back. */
  lemma RemoveAppended(s: seq<Handle>, x: Handle)
    requires x !in s
    ensures RemoveFirst(s + [x], x) == s
  {
    RemoveFirstAt(s + [x], x, |s|);
    assert (s + [x])[..|s|] + (s + [x])[|s| + 1..] == s;
  }

  /** `on` followed by `off` of a callback not already listening leaves every event's listeners as they were. */
  lemma SubscribeThenUnsubscribe(reg: Registry, e: EventName, cb: Handle, other: EventName)
    requires cb !in Listeners(reg, e)
    ensures Listeners(Unsubscribe(Subscribe(reg, e, cb), e, cb), other) == Listeners(reg, other)
  {
    var s := Listeners(reg, e);
    RemoveAppended(s, cb);
    assert Unsubscribe(Subscribe(reg, e, cb), e, cb) == reg[e := s];
  }

  /**
    The forwarding handlers registered in `connect`: `todoDeleted` hands on only `data.id`,
    `todosBulkDeleted` only `data.type`; every other event hands on its payload unchanged.
   */
  function Unwrap(m: Message): (p: Payload)
    requires WellFormed(m)
    ensures ListenerShape(m.event, p)
    ensures m.event == TodoDeleted ==> p == IdValue(m.payload.id)
    ensures m.event == TodosBulkDeleted ==> p == TypeValue(m.payload.kind)
    ensures m.event != TodoDeleted && m.event != TodosBulkDeleted ==> p == m.payload
  {
    match m.event
    case TodoDeleted => IdValue(m.payload.id)
    case TodosBulkDeleted => TypeValue(m.payload.kind)
    case _ => m.payload
  }

  /** The `socket` field: no socket, or a socket.io socket with its connection flag. */
  datatype SocketState = NoSocket | Open(connected: bool)

  /** `indexOf`: the first position of `x`, or -1 when it does not occur. */
  method IndexOf(s: seq<Handle>, x: Handle) returns (index: int)
    ensures -1 <= index < |s|
    ensures index == -1 <==> x !in s
    ensures index >= 0 ==> s[index] == x && x !in s[..index]
  {
    index := 0;
    while index < |s|
      invariant 0 <= index <= |s|
      invariant x !in s[..index]
    {
      if s[index] == x {
        return;
      }
      index := index + 1;
    }
    assert s[..index] == s;
    index := -1;
  }

  class SocketService {

    var socket: SocketState
    var listeners: Registry
    /** The presence messages emitted on the socket, in order. */
    var sent: seq<ClientMessage>

    constructor ()
      ensures socket == NoSocket && listeners == map[] && sent == []
    {
      socket := NoSocket;
      listeners := map[];
      sent := [];
    }

    /**
      `connect`: nothing when the socket is already connected; otherwise a new socket replaces
      any previous one and starts connecting.  The registry is not touched.
     */
    method Connect()
      modifies this`socket
      ensures old(socket) == Open(true) ==> socket == Open(true)
      ensures old(socket) != Open(true) ==> socket == Open(false)
    {
      if socket.Open? && socket.connected {
        return;
      }
      socket := Open(false);
    }

    /** The socket's own `connect` and `disconnect` notifications: only the connection flag changes. */
    method TransportChanged(connected: bool)
      requires socket.Open?
      modifies this`socket
      ensures socket == Open(connected)
    {
      socket := Open(connected);
    }

    /** `disconnect`: afterwards there is no socket. */
    method Disconnect()
      modifies this`socket
      ensures socket == NoSocket
    {
      if socket.Open? {
        socket := NoSocket;
      }
    }

    /** `isConnected`: a socket exists and is connected. */
    function IsConnected(): (r: bool)
      reads this
      ensures r <==> socket == Open(true)
    {
      socket.Open? && socket.connected
    }

    method On(e: EventName, cb: Handle)
      modifies this`listeners
      ensures listeners == Subscribe(old(listeners), e, cb)
    {
      if e !in listeners {
        listeners := listeners[e := []];
      }
      listeners := listeners[e := listeners[e] + [cb]];
    }

    method Off(e: EventName, cb: Handle)
      modifies this`listeners
      ensures listeners == Unsubscribe(old(listeners), e, cb)
    {
      if e in listeners {
        var eventListeners := listeners[e];
        var index := IndexOf(eventListeners, cb);
        if index > -1 {
          RemoveFirstAt(eventListeners, cb, index);
          listeners := listeners[e := eventListeners[..index] + eventListeners[index + 1..]];
        }
      }
    }

    /** `emit`: calls every callback registered for `e`, in registration order, each with `arg`. */
    method Emit(e: EventName, arg: Payload) returns (calls: seq<Invocation>)
      ensures |calls| == |Listeners(listeners, e)|
      ensures forall i :: 0 <= i < |calls| ==> calls[i] == Invocation(Listeners(listeners, e)[i], arg)
    {
      calls := [];
      if e in listeners {
        var eventListeners := listeners[e];
        var i := 0;
        while i < |eventListeners|
          invariant 0 <= i <= |eventListeners|
          invariant |calls| == i
          invariant forall k :: 0 <= k < i ==> calls[k] == Invocation(eventListeners[k], arg)
        {
          calls := calls + [Invocation(eventListeners[i], arg)];
          i := i + 1;
        }
      }
    }

    /** A server message arriving on the socket: forwarded, unwrapped, to the callbacks of its event. */
    method Receive(m: Message) returns (calls: seq<Invocation>)
      requires socket.Open? && WellFormed(m)
      ensures |calls| == |Listeners(listeners, m.event)|
      ensures forall i :: 0 <= i < |calls| ==> calls[i] == Invocation(Listeners(listeners, m.event)[i], Unwrap(m))
    {
      calls := Emit(m.event, Unwrap(m));
    }

    /** `emitStartEdit`: sends `startEdit` when there is a socket, nothing otherwise. */
    method EmitStartEdit(todoId: Id)
      modifies this`sent
      ensures sent == old(sent) + (if socket.Open? then [StartEdit(todoId)] else [])
    {
      if socket.Open? {
        sent := sent + [StartEdit(todoId)];
      }
    }

    /** `emitEndEdit`: sends `endEdit` when there is a socket, nothing otherwise. */
    method EmitEndEdit(todoId: Id)
      modifies this`sent
      ensures sent == old(sent) + (if socket.Open? then [EndEdit(todoId)] else [])
    {
      if socket.Open? {
        sent := sent + [EndEdit(todoId)];
      }
    }

    /** `emitEditChange`: sends `editChange` with the text when there is a socket, nothing otherwise. */
    method EmitEditChange(todoId: Id, text: string)
      modifies this`sent
      ensures sent == old(sent) + (if socket.Open? then [EditChange(todoId, text)] else [])
    {
      if socket.Open? {
        sent := sent + [EditChange(todoId, text)];
      }
    }
  }
}
