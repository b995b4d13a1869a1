/**
 * The client-side event bus: a registry of listeners per event name.
 * Subscribing appends a listener (duplicates allowed), unsubscribing removes
 * its first registration, and emitting calls every listener of the event
 * in registration order, a listener that throws being logged and skipped
 * over. Listeners are identified by a number standing for the function's
 * identity.
 */
module EventBus {
  import opened Queries

  /** A listener, by identity. */
  type Callback = int

  /** `listeners.get(event)`, with a missing event read as no listeners. */
  function ListenersOf(m: map<string, seq<Callback>>, event: string): (r: seq<Callback>)
    ensures event !in m ==> r == []
    ensures event in m ==> r == m[event]
  {
    if event in m then m[event] else []
  }

  /** `callbacks.indexOf(cb)`: the first position of `cb`, or -1. */
  function IndexOfCallback(s: seq<Callback>, cb: Callback): (i: int)
    ensures -1 <= i < |s|
    ensures i == -1 <==> cb !in s
    ensures 0 <= i ==> s[i] == cb && cb !in s[..i]
  {
    if s == [] then -1
    else if s[|s| - 1] == cb && cb !in s[..|s| - 1] then |s| - 1
    else
      var i := IndexOfCallback(s[..|s| - 1], cb);
      assert i >= 0 ==> s[..|s| - 1][..i] == s[..i];
      i
  }

  /** The list after `splice(index, 1)` when the index is found, the list itself otherwise. */
  function RemoveFirst(s: seq<Callback>, cb: Callback): (r: seq<Callback>)
    ensures cb !in s ==> r == s
    ensures cb in s ==> |r| == |s| - 1 && multiset(r) == multiset(s) - multiset{cb}
    ensures cb in s ==> exists i :: 0 <= i < |s| && s[i] == cb && cb !in s[..i] && r == s[..i] + s[i + 1..]
  {
    var i := IndexOfCallback(s, cb);
    if i > -1 then
      assert s == s[..i] + [s[i]] + s[i + 1..];
      s[..i] + s[i + 1..]
    else s
  }

  /** The registry after `subscribe(event, cb)`. */
  function Subscribed(m: map<string, seq<Callback>>, event: string, cb: Callback): (r: map<string, seq<Callback>>)
    ensures r.Keys == m.Keys + {event}
    ensures ListenersOf(r, event) == ListenersOf(m, event) + [cb]
    ensures forall e :: e != event ==> ListenersOf(r, e) == ListenersOf(m, e)
  {
    m[event := ListenersOf(m, event) + [cb]]
  }

  /** The registry after `unsubscribe(event, cb)`: only a registered event's list changes. */
  function Unsubscribed(m: map<string, seq<Callback>>, event: string, cb: Callback): (r: map<string, seq<Callback>>)
    ensures r.Keys == m.Keys
    ensures ListenersOf(r, event) == RemoveFirst(ListenersOf(m, event), cb)
    ensures forall e :: e != event ==> ListenersOf(r, e) == ListenersOf(m, e)
    ensures cb !in ListenersOf(m, event) ==> r == m
  {
    if event in m then m[event := RemoveFirst(m[event], cb)] else m
  }

  /** Subscribing a listener not yet registered for the event and unsubscribing it again leaves every event's listeners as they were. */
  lemma SubscribeThenUnsubscribe(m: map<string, seq<Callback>>, event: string, cb: Callback)
    requires cb !in ListenersOf(m, event)
    ensures forall e :: ListenersOf(Unsubscribed(Subscribed(m, event, cb), event, cb), e) == ListenersOf(m, e)
  {
    var s := ListenersOf(m, event);
    assert IndexOfCallback(s + [cb], cb) == |s|;
    assert (s + [cb])[..|s|] == s;
  }

  /** Unsubscribing removes one registration of the listener, so the count of its registrations drops by one when it had any. */
  lemma UnsubscribeDropsOne(m: map<string, seq<Callback>>, event: string, cb: Callback)
    ensures multiset(ListenersOf(Unsubscribed(m, event, cb), event))[cb]
            == if cb in ListenersOf(m, event) then multiset(ListenersOf(m, event))[cb] - 1 else 0
  {
    var s := ListenersOf(m, event);
    if cb !in s {
      assert multiset(s)[cb] == 0;
    }
  }

  /** The registry; one instance serves the whole client. */
  class WebSocketService {
    var listeners: map<string, seq<Callback>>

    constructor()
      ensures listeners == map[]
    {
      listeners := map[];
    }

    /** `subscribe`: creates the event's list when missing, then appends. */
    method Subscribe(event: string, cb: Callback)
      modifies this
      ensures listeners == Subscribed(old(listeners), event, cb)
    {
      if event !in listeners {
        listeners := listeners[event := []];
      }
      listeners := listeners[event := listeners[event] + [cb]];
    }

    /** `unsubscribe`: removes the first registration, if any. */
    method Unsubscribe(event: string, cb: Callback)
      modifies this
      ensures listeners == Unsubscribed(old(listeners), event, cb)
    {
      if event in listeners {
        var callbacks := listeners[event];
        var index := IndexOfCallback(callbacks, cb);
        if index > -1 {
          listeners := listeners[event := callbacks[..index] + callbacks[index + 1..]];
        }
      }
    }

    /**
     * `emit`: calls each listener of the event once, in order. `throws`
     * tells which listeners throw; their errors are caught and listed, and
     * the later listeners still run.
     */
    method Emit(event: string, throws: Callback -> bool) returns (invoked: seq<Callback>, errors: seq<Callback>)
      ensures invoked == ListenersOf(listeners, event)
      ensures errors == Filter(invoked, throws)
    {
      invoked, errors := [], [];
      if event in listeners {
        var callbacks := listeners[event];
        for k := 0 to |callbacks|
          invariant invoked == callbacks[..k]
          invariant errors == Filter(callbacks[..k], throws)
        {
          FilterAppend(callbacks[..k], callbacks[k], throws);
          assert callbacks[..k + 1] == callbacks[..k] + [callbacks[k]];
          invoked := invoked + [callbacks[k]];
          if throws(callbacks[k]) {
            errors := errors + [callbacks[k]];
          }
        }
        assert callbacks[..|callbacks|] == callbacks;
      }
    }
  }
}
