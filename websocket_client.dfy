/**
 * The browser-side socket wrapper `FairTalkWebSocket` of
 * frontend/src/utils/websocketClient.js: an outbox that holds messages while
 * disconnected, a registry of event listeners, and a linear reconnect
 * backoff.
 *
 * Listeners are named by ids; calling one is recorded in `calls`, and the
 * ones that throw (a parameter of each emit) are also recorded in `failed`,
 * which stands for the logged error. Frames sent on the socket are appended
 * to `sent`. Timers are left to the caller: a reconnect answers the delay it
 * would wait.
 */
module WebsocketClient {
  import opened Common
  import opened OrderedMap
  import opened JsText

  type ListenerId = nat

  /** A message payload: field name -> JSON text of the value. */
  type Payload = Assoc<string, string>

  datatype ClientMessage = ClientMessage(kind: string, payload: Payload)

  /** The argument an event's listeners receive. */
  datatype EventData =
    | NoData
    | ConnectedAs(userId: string)
    | Rest(fields: Payload)
    | Whole(kind: string, fields: Payload)
    | SocketError                      // the browser's error event, passed on as is

  datatype Call = Call(listener: ListenerId, event: string, data: EventData)

  const MAX_RECONNECT_ATTEMPTS: nat := 5
  const RECONNECT_DELAY: nat := 3000
  const USER_PREFIX := "user-"

  /** `callbacks.indexOf(x)`: the first position of `x`, or -1. */
  function IndexOf(s: seq<ListenerId>, x: ListenerId): (i: int)
    ensures -1 <= i < |s|
    ensures i == -1 <==> x !in s
    ensures i >= 0 ==> s[i] == x && x !in s[..i]
  {
    if s == [] then -1
    else if s[0] == x then 0
    else
      var j := IndexOf(s[1..], x);
      assert j >= 0 ==> s[..j + 1] == [s[0]] + s[1..][..j];
      if j == -1 then -1 else j + 1
  }

  /** `off`'s `splice(indexOf(callback), 1)` when the callback is present. */
  function RemoveFirst(s: seq<ListenerId>, x: ListenerId): seq<ListenerId> {
    var i := IndexOf(s, x);
    if i == -1 then s else s[..i] + s[i + 1..]
  }

  /** Removing drops exactly one occurrence, the first, and keeps the order
      of the rest; an absent callback leaves the list as it was. */
  lemma RemoveFirstMeaning(s: seq<ListenerId>, x: ListenerId)
    ensures x !in s ==> RemoveFirst(s, x) == s
    ensures x in s ==> |RemoveFirst(s, x)| == |s| - 1
    ensures multiset(RemoveFirst(s, x)) == multiset(s) - multiset{x}
    ensures x in s ==> exists i :: 0 <= i < |s| && s[i] == x && x !in s[..i] && RemoveFirst(s, x) == s[..i] + s[i + 1..]
  {
    var i := IndexOf(s, x);
    if i >= 0 {
      assert s == s[..i] + [s[i]] + s[i + 1..];
      assert multiset(s) == multiset(s[..i]) + multiset{x} + multiset(s[i + 1..]);
    } else {
      assert x !in multiset(s);
    }
  }

  /** Registering then removing the same callback restores the list. */
  lemma OnThenOff(s: seq<ListenerId>, x: ListenerId)
    requires x !in s
    ensures RemoveFirst(s + [x], x) == s
  {
    assert (s + [x])[..|s|] == s;
  }

  /** The calls `forEach` makes: every listener in order, with the same data. */
  function CallsOf(ls: seq<ListenerId>, event: string, data: EventData): (r: seq<Call>)
    ensures |r| == |ls|
    ensures forall k :: 0 <= k < |ls| ==> r[k] == Call(ls[k], event, data)
  {
    seq(|ls|, k requires 0 <= k < |ls| => Call(ls[k], event, data))
  }

  /** The calls among those that throw (and are logged): the others still ran. */
  function FailedOf(ls: seq<ListenerId>, event: string, data: EventData, throwing: set<ListenerId>): seq<Call> {
    if ls == [] then []
    else
      FailedOf(ls[..|ls| - 1], event, data, throwing)
        + if ls[|ls| - 1] in throwing then [Call(ls[|ls| - 1], event, data)] else []
  }

  /** One more listener called: one more call, and one more failure if it throws. */
  lemma CallsAndFailuresStep(ls: seq<ListenerId>, k: nat, event: string, data: EventData, throwing: set<ListenerId>)
    requires k < |ls|
    ensures CallsOf(ls[..k + 1], event, data) == CallsOf(ls[..k], event, data) + [Call(ls[k], event, data)]
    ensures FailedOf(ls[..k + 1], event, data, throwing)
      == FailedOf(ls[..k], event, data, throwing) + if ls[k] in throwing then [Call(ls[k], event, data)] else []
  {
    var done := ls[..k + 1];
    assert done[..k] == ls[..k] && done[k] == ls[k];
  }

  /** The logged failures are exactly the calls of the throwing listeners; a
      throwing listener does not stop the ones after it from being called. */
  lemma {:induction false} FailedAreThrowingCalls(ls: seq<ListenerId>, event: string, data: EventData, throwing: set<ListenerId>)
    ensures forall c :: c in FailedOf(ls, event, data, throwing) <==> c in CallsOf(ls, event, data) && c.listener in throwing
    ensures |FailedOf(ls, event, data, throwing)| <= |ls|
  {
    if ls != [] {
      var init := ls[..|ls| - 1];
      FailedAreThrowingCalls(init, event, data, throwing);
      assert CallsOf(ls, event, data) == CallsOf(init, event, data) + [Call(ls[|ls| - 1], event, data)];
    }
  }

  /** The delay `attemptReconnect` waits before its next try after the given
      number of earlier tries, or `None` once the cap is reached. */
  function NextDelay(attempts: nat): (d: Option<nat>)
    ensures d.Some? <==> attempts < MAX_RECONNECT_ATTEMPTS
    ensures d.Some? ==> d.value == RECONNECT_DELAY * (attempts + 1)
  {
    if attempts < MAX_RECONNECT_ATTEMPTS then Some(RECONNECT_DELAY * (attempts + 1)) else None
  }

  /** The delays of `n` closes in a row with no successful open in between. */
  function Delays(attempts: nat, n: nat): seq<Option<nat>>
    decreases n
  {
    if n == 0 then []
    else [NextDelay(attempts)] + Delays(if attempts < MAX_RECONNECT_ATTEMPTS then attempts + 1 else attempts, n - 1)
  }

  /** From a fresh start the client waits 3, 6, 9, 12 and 15 seconds and then
      gives up for good. */
  lemma BackoffSchedule()
    ensures Delays(0, 7) == [Some(3000), Some(6000), Some(9000), Some(12000), Some(15000), None, None]
  {
    assert Delays(5, 2) == [None, None];
  }

  /** Every delay is at most 5 * 3000 ms, and retries stop after five. */
  lemma {:induction false} DelaysBounded(attempts: nat, n: nat)
    requires attempts <= MAX_RECONNECT_ATTEMPTS
    ensures forall k :: 0 <= k < |Delays(attempts, n)| && Delays(attempts, n)[k].Some? ==>
      Delays(attempts, n)[k].value <= RECONNECT_DELAY * MAX_RECONNECT_ATTEMPTS
    ensures |Delays(attempts, n)| == n
    ensures n >= MAX_RECONNECT_ATTEMPTS - attempts + 1 ==> Delays(attempts, n)[MAX_RECONNECT_ATTEMPTS - attempts].None?
    decreases n
  {
    if n > 0 {
      var next := if attempts < MAX_RECONNECT_ATTEMPTS then attempts + 1 else attempts;
      DelaysBounded(next, n - 1);
      assert Delays(attempts, n)[1..] == Delays(next, n - 1);
      if n >= MAX_RECONNECT_ATTEMPTS - attempts + 1 && attempts < MAX_RECONNECT_ATTEMPTS {
        assert Delays(attempts, n)[MAX_RECONNECT_ATTEMPTS - attempts] == Delays(next, n - 1)[MAX_RECONNECT_ATTEMPTS - next];
      }
    }
  }

  class FairTalkSocket {
    const userId: string
    var hasSocket: bool
    var connected: bool
    var messageQueue: seq<ClientMessage>
    var listeners: map<string, seq<ListenerId>>
    var reconnectAttempts: nat
    var sent: seq<ClientMessage>
    var calls: seq<Call>
    var failed: seq<Call>

    ghost predicate Valid()
      reads this
    {
      reconnectAttempts <= MAX_RECONNECT_ATTEMPTS
    }

    /** `new FairTalkWebSocket(userId)`: a missing id becomes "user-" and a
        random suffix. */
    constructor(requested: Option<string>, randomSuffix: string)
      ensures Valid()
      ensures userId == if TruthyString(requested) then requested.value else USER_PREFIX + randomSuffix
      ensures !hasSocket && !connected && messageQueue == [] && listeners == map[] && reconnectAttempts == 0
      ensures sent == [] && calls == [] && failed == []
    {
      userId := if TruthyString(requested) then requested.value else USER_PREFIX + randomSuffix;
      hasSocket := false;
      connected := false;
      messageQueue := [];
      listeners := map[];
      reconnectAttempts := 0;
      sent := [];
      calls := [];
      failed := [];
    }

    /** `connect`: a socket now exists; it is open once `OnOpen` runs. */
    method Connect()
      modifies this
      ensures hasSocket
      ensures connected == old(connected) && messageQueue == old(messageQueue) && listeners == old(listeners)
      ensures reconnectAttempts == old(reconnectAttempts) && sent == old(sent) && calls == old(calls) && failed == old(failed)
    {
      hasSocket := true;
    }

    /** `send`: transmit now when connected, otherwise append to the outbox. */
    method Send(kind: string, payload: Payload)
      modifies this
      ensures connected && hasSocket ==> sent == old(sent) + [ClientMessage(kind, payload)] && messageQueue == old(messageQueue)
      ensures !(connected && hasSocket) ==> messageQueue == old(messageQueue) + [ClientMessage(kind, payload)] && sent == old(sent)
      ensures connected == old(connected) && hasSocket == old(hasSocket) && listeners == old(listeners)
      ensures reconnectAttempts == old(reconnectAttempts) && calls == old(calls) && failed == old(failed)
    {
      var message := ClientMessage(kind, payload);
      if connected && hasSocket {
        sent := sent + [message];
      } else {
        messageQueue := messageQueue + [message];
      }
    }

    /** `flushMessageQueue`: shift and send until the outbox is empty, so the
        queued messages go out first-in first-out after what was sent before. */
    method FlushMessageQueue()
      requires hasSocket
      modifies this
      ensures messageQueue == []
      ensures sent == old(sent) + old(messageQueue)
      ensures connected == old(connected) && hasSocket == old(hasSocket) && listeners == old(listeners)
      ensures reconnectAttempts == old(reconnectAttempts) && calls == old(calls) && failed == old(failed)
    {
      while |messageQueue| > 0
        invariant sent + messageQueue == old(sent) + old(messageQueue)
        invariant connected == old(connected) && hasSocket == old(hasSocket) && listeners == old(listeners)
        invariant reconnectAttempts == old(reconnectAttempts) && calls == old(calls) && failed == old(failed)
        decreases |messageQueue|
      {
        var message := messageQueue[0];
        assert messageQueue == [message] + messageQueue[1..];
        messageQueue := messageQueue[1..];
        sent := sent + [message];
      }
    }

    /** The listeners registered for an event, in registration order. */
    function ListenersOf(event: string): seq<ListenerId>
      reads this
    {
      if event in listeners then listeners[event] else []
    }

    /** `on`: append the callback; the ones already there stay, in order. */
    method On(event: string, callback: ListenerId)
      modifies this
      ensures listeners == old(listeners)[event := old(ListenersOf(event)) + [callback]]
      ensures ListenersOf(event)[..|ListenersOf(event)| - 1] == old(ListenersOf(event))
      ensures connected == old(connected) && hasSocket == old(hasSocket) && messageQueue == old(messageQueue)
      ensures reconnectAttempts == old(reconnectAttempts) && sent == old(sent) && calls == old(calls) && failed == old(failed)
    {
      listeners := listeners[event := ListenersOf(event) + [callback]];
    }

    /** `off`: remove the first occurrence of the callback, if any. */
    method Off(event: string, callback: ListenerId)
      modifies this
      ensures listeners == if event in old(listeners) then old(listeners)[event := RemoveFirst(old(listeners)[event], callback)] else old(listeners)
      ensures connected == old(connected) && hasSocket == old(hasSocket) && messageQueue == old(messageQueue)
      ensures reconnectAttempts == old(reconnectAttempts) && sent == old(sent) && calls == old(calls) && failed == old(failed)
    {
      if event in listeners {
        var callbacks := listeners[event];
        var index := IndexOf(callbacks, callback);
        if index > -1 {
          listeners := listeners[event := callbacks[..index] + callbacks[index + 1..]];
        }
      }
    }

    /** `emit`: call every listener of the event in order; a listener that
        throws is logged and the loop goes on. */
    method Emit(event: string, data: EventData, throwing: set<ListenerId>)
      modifies this
      ensures calls == old(calls) + CallsOf(old(ListenersOf(event)), event, data)
      ensures failed == old(failed) + FailedOf(old(ListenersOf(event)), event, data, throwing)
      ensures connected == old(connected) && hasSocket == old(hasSocket) && messageQueue == old(messageQueue)
      ensures listeners == old(listeners) && reconnectAttempts == old(reconnectAttempts) && sent == old(sent)
    {
      var callbacks := ListenersOf(event);
      for k := 0 to |callbacks|
        invariant calls == old(calls) + CallsOf(callbacks[..k], event, data)
        invariant failed == old(failed) + FailedOf(callbacks[..k], event, data, throwing)
        invariant connected == old(connected) && hasSocket == old(hasSocket) && messageQueue == old(messageQueue)
        invariant listeners == old(listeners) && reconnectAttempts == old(reconnectAttempts) && sent == old(sent)
      {
        CallsAndFailuresStep(callbacks, k, event, data, throwing);
        calls := calls + [Call(callbacks[k], event, data)];
        if callbacks[k] in throwing {
          failed := failed + [Call(callbacks[k], event, data)];
        }
      }
      assert callbacks[..|callbacks|] == callbacks;
    }

    /** `handleMessage`: emit the message's type with the other fields, then
        'message' with the whole message. */
    method HandleMessage(kind: string, rest: Payload, throwing: set<ListenerId>)
      modifies this
      ensures calls == old(calls) + CallsOf(old(ListenersOf(kind)), kind, Rest(rest))
                                  + CallsOf(old(ListenersOf("message")), "message", Whole(kind, rest))
      ensures failed == old(failed) + FailedOf(old(ListenersOf(kind)), kind, Rest(rest), throwing)
                                    + FailedOf(old(ListenersOf("message")), "message", Whole(kind, rest), throwing)
      ensures connected == old(connected) && hasSocket == old(hasSocket) && messageQueue == old(messageQueue)
      ensures listeners == old(listeners) && reconnectAttempts == old(reconnectAttempts) && sent == old(sent)
    {
      Emit(kind, Rest(rest), throwing);
      Emit("message", Whole(kind, rest), throwing);
    }

    /** `ws.onopen`: connected, the retry count reset, 'connected' emitted and
        the outbox flushed. */
    method OnOpen(throwing: set<ListenerId>)
      requires hasSocket
      modifies this
      ensures Valid()
      ensures connected && reconnectAttempts == 0
      ensures messageQueue == [] && sent == old(sent) + old(messageQueue)
      ensures calls == old(calls) + CallsOf(old(ListenersOf("connected")), "connected", ConnectedAs(userId))
      ensures failed == old(failed) + FailedOf(old(ListenersOf("connected")), "connected", ConnectedAs(userId), throwing)
      ensures hasSocket && listeners == old(listeners)
    {
      connected := true;
      reconnectAttempts := 0;
      Emit("connected", ConnectedAs(userId), throwing);
      FlushMessageQueue();
    }

    /** `attemptReconnect`: below the cap, count the try and answer the delay
        3000 ms times the count; at the cap emit 'maxReconnectAttemptsReached'
        and answer none. */
    method AttemptReconnect(throwing: set<ListenerId>) returns (delay: Option<nat>)
      requires Valid()
      modifies this
      ensures Valid()
      ensures delay == NextDelay(old(reconnectAttempts))
      ensures delay.Some? ==>
        && reconnectAttempts == old(reconnectAttempts) + 1 && delay.value == RECONNECT_DELAY * reconnectAttempts
        && calls == old(calls) && failed == old(failed)
      ensures delay.None? ==>
        && reconnectAttempts == old(reconnectAttempts) == MAX_RECONNECT_ATTEMPTS
        && calls == old(calls) + CallsOf(old(ListenersOf("maxReconnectAttemptsReached")), "maxReconnectAttemptsReached", NoData)
        && failed == old(failed) + FailedOf(old(ListenersOf("maxReconnectAttemptsReached")), "maxReconnectAttemptsReached", NoData, throwing)
      ensures connected == old(connected) && hasSocket == old(hasSocket) && messageQueue == old(messageQueue)
      ensures listeners == old(listeners) && sent == old(sent)
    {
      if reconnectAttempts < MAX_RECONNECT_ATTEMPTS {
        reconnectAttempts := reconnectAttempts + 1;
        delay := Some(RECONNECT_DELAY * reconnectAttempts);
      } else {
        Emit("maxReconnectAttemptsReached", NoData, throwing);
        delay := None;
      }
    }

    /** `ws.onerror`: 'error' emitted; the rejection of the pending `connect`
        promise has no effect on the fields. */
    method OnError(throwing: set<ListenerId>)
      modifies this
      ensures calls == old(calls) + CallsOf(old(ListenersOf("error")), "error", SocketError)
      ensures failed == old(failed) + FailedOf(old(ListenersOf("error")), "error", SocketError, throwing)
      ensures connected == old(connected) && hasSocket == old(hasSocket) && messageQueue == old(messageQueue)
      ensures listeners == old(listeners) && reconnectAttempts == old(reconnectAttempts) && sent == old(sent)
    {
      Emit("error", SocketError, throwing);
    }

    /** `disconnect`: with a socket, ask it to close and mark the client
        disconnected; the close itself arrives later as `OnClose`. */
    method Disconnect()
      modifies this
      ensures connected == (old(connected) && !old(hasSocket))
      ensures hasSocket == old(hasSocket) && messageQueue == old(messageQueue) && listeners == old(listeners)
      ensures reconnectAttempts == old(reconnectAttempts) && sent == old(sent) && calls == old(calls) && failed == old(failed)
    {
      if hasSocket {
        connected := false;
      }
    }

    /** `ws.onclose`: not connected, 'disconnected' emitted, then a reconnect
        attempt. */
    method OnClose(throwing: set<ListenerId>) returns (delay: Option<nat>)
      requires Valid()
      modifies this
      ensures Valid()
      ensures !connected
      ensures delay == NextDelay(old(reconnectAttempts))
      ensures reconnectAttempts == if old(reconnectAttempts) < MAX_RECONNECT_ATTEMPTS then old(reconnectAttempts) + 1 else old(reconnectAttempts)
      ensures calls == old(calls) + CallsOf(old(ListenersOf("disconnected")), "disconnected", NoData)
        + if delay.None? then CallsOf(old(ListenersOf("maxReconnectAttemptsReached")), "maxReconnectAttemptsReached", NoData) else []
      ensures failed == old(failed) + FailedOf(old(ListenersOf("disconnected")), "disconnected", NoData, throwing)
        + if delay.None? then FailedOf(old(ListenersOf("maxReconnectAttemptsReached")), "maxReconnectAttemptsReached", NoData, throwing) else []
      ensures hasSocket == old(hasSocket)
      ensures messageQueue == old(messageQueue) && listeners == old(listeners) && sent == old(sent)
    {
      connected := false;
      Emit("disconnected", NoData, throwing);
      delay := AttemptReconnect(throwing);
    }
  }
}
