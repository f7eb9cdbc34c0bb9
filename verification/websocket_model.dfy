/** The notification client of `BaseWebSocketService` as a state machine over
    values: one step per public operation and per inbound transport event,
    run one at a time. The transport library is represented by the value of
    the client it created (an identity and its `isOpen()` flag) and by the log
    of `close()` calls the service makes on such clients. */
module WebSocketModel {
  import opened Wrappers
  import opened JavaTypes

  /** A `LinkedBlockingQueue` built without a capacity holds at most
      `Integer.MAX_VALUE` elements; `offer` on a full queue returns false. */
  const QueueCapacity: nat := 0x7fff_ffff

  /** `AtomicInteger.incrementAndGet`: two's-complement wrap at the top. */
  function Inc(x: Int32): Int32 {
    if x == IntMax then IntMin else x + 1
  }

  /** `n` successive increments. */
  function IncBy(x: Int32, n: nat): Int32
    decreases n
  {
    if n == 0 then x else IncBy(Inc(x), n - 1)
  }

  lemma {:induction false} IncByWithoutWrap(x: Int32, n: nat)
    requires x + n <= IntMax
    ensures IncBy(x, n) == x + n
    decreases n
  {
    if n > 0 {
      IncByWithoutWrap(Inc(x), n - 1);
    }
  }

  /** A transport created by `connect`, as the library reports it. */
  datatype Client = Client(id: nat, open: bool)

  /** What the handshake started by `client.connect()` produces before the
      configured timeout: the open event, or nothing. */
  datatype Handshake = Opened | TimedOut

  /** The `TimeoutException` thrown by `connect`, with the configured seconds. */
  datatype ConnectError = ConnectionTimeout(seconds: int)

  datatype State<T> = State(
    client: Option<Client>,    // the `client` field (null is None)
    queue: seq<T>,             // the `notifications` queue, head first
    messagesReceived: Int32,
    errorsCount: Int32,
    closeLog: seq<nat>,        // identities passed to `close()`, oldest first
    nextId: nat)               // identity of the next client `connect` creates

  ghost predicate Valid<T>(s: State<T>) {
    && |s.queue| <= QueueCapacity
    && (s.client.Some? ==> s.client.value.id < s.nextId)
    && (forall k :: 0 <= k < |s.closeLog| ==> s.closeLog[k] < s.nextId)
  }

  /** A freshly constructed service: no client, empty queue, zero counters. */
  function Init<T>(): (s: State<T>)
    ensures Valid(s)
  {
    State(None, [], 0, 0, [], 0)
  }

  /** `isConnected()`: derived from the reference and the transport's flag. */
  predicate IsConnected<T>(s: State<T>) {
    s.client.Some? && s.client.value.open
  }

  /** `connect()`, lines 43-97. */
  function Connect<T>(s: State<T>, handshake: Handshake, timeout: int): (State<T>, Outcome<ConnectError>)
  {
    if IsConnected(s) then (s, Pass)
    else
      var log := if s.client.Some? then s.closeLog + [s.client.value.id] else s.closeLog;
      var id := s.nextId;
      match handshake
      case Opened =>
        (s.(client := Some(Client(id, true)), closeLog := log, nextId := id + 1), Pass)
      case TimedOut =>
        (s.(client := Some(Client(id, false)), closeLog := log + [id], nextId := id + 1),
         Fail(ConnectionTimeout(timeout)))
  }

  /** `disconnect()`, lines 121-130: take the reference, clear it, close it. */
  function Disconnect<T>(s: State<T>): State<T> {
    match s.client
    case None => s
    case Some(c) => s.(client := None, closeLog := s.closeLog + [c.id])
  }

  /** The `onMessage` handler, lines 63-75, given what the decoder produced
      (None when `readValue` or `offer` threw). */
  function OnMessage<T>(s: State<T>, decoded: Option<T>): State<T> {
    var received := Inc(s.messagesReceived);
    match decoded
    case Some(n) =>
      s.(messagesReceived := received,
         queue := if |s.queue| < QueueCapacity then s.queue + [n] else s.queue)
    case None =>
      s.(messagesReceived := received, errorsCount := Inc(s.errorsCount))
  }

  /** The `onError` handler, lines 82-87. */
  function OnError<T>(s: State<T>): State<T> {
    s.(errorsCount := Inc(s.errorsCount))
  }

  /** A close event of the transport `id`: the transport itself reports
      closed from then on; the `onClose` handler, lines 77-80, changes nothing. */
  function OnClose<T>(s: State<T>, id: nat): State<T> {
    if s.client.Some? && s.client.value.id == id then s.(client := Some(s.client.value.(open := false)))
    else s
  }

  /** `waitForNotification`, lines 107-109, when nothing arrives during the wait. */
  function Poll<T>(s: State<T>): (State<T>, Option<T>) {
    if s.queue == [] then (s, None) else (s.(queue := s.queue[1..]), Some(s.queue[0]))
  }

  /** `clearNotifications()`, lines 114-116. */
  function ClearNotifications<T>(s: State<T>): State<T> {
    s.(queue := [])
  }

  /** `resetMetrics()`, lines 156-160. */
  function ResetMetrics<T>(s: State<T>): State<T> {
    s.(messagesReceived := 0, errorsCount := 0, queue := [])
  }

  /* ---------- one operation at a time ---------- */

  lemma StepsPreserveValid<T>(s: State<T>, h: Handshake, timeout: int, d: Option<T>, id: nat)
    requires Valid(s)
    ensures Valid(Connect(s, h, timeout).0) && Valid(Disconnect(s))
    ensures Valid(OnMessage(s, d)) && Valid(OnError(s)) && Valid(OnClose(s, id))
    ensures Valid(Poll(s).0) && Valid(ClearNotifications(s)) && Valid(ResetMetrics(s))
  {
  }

  /** `connect` while connected returns at once and touches nothing. */
  lemma ConnectWhenConnected<T>(s: State<T>, h: Handshake, timeout: int)
    requires IsConnected(s)
    ensures Connect(s, h, timeout) == (s, Pass)
  {
  }

  /** Otherwise the held client, if any, is closed first; then exactly one new
      client is installed; the only other `close()` is of the new client,
      on timeout; queue and counters are untouched; and the call succeeds
      exactly when the service ends up connected. */
  lemma ConnectReplacesClient<T>(s: State<T>, h: Handshake, timeout: int)
    requires Valid(s) && !IsConnected(s)
    ensures var (s', r) := Connect(s, h, timeout);
            && s'.client.Some? && s'.client.value.id == s.nextId
            && (forall k :: 0 <= k < |s.closeLog| ==> s.closeLog[k] != s'.client.value.id)
            && s'.closeLog == s.closeLog + (if s.client.Some? then [s.client.value.id] else [])
                                         + (if h == TimedOut then [s.nextId] else [])
            && s'.nextId == s.nextId + 1
            && s'.queue == s.queue
            && s'.messagesReceived == s.messagesReceived && s'.errorsCount == s.errorsCount
            && (r.Pass? <==> IsConnected(s')) && (r.Pass? <==> h == Opened)
  {
  }

  /** The timeout path: the new client is closed, the exception carries the
      configured timeout, and the service is not connected afterwards. */
  lemma ConnectTimeout<T>(s: State<T>, timeout: int)
    requires !IsConnected(s)
    ensures var (s', r) := Connect(s, TimedOut, timeout);
            && r == Fail(ConnectionTimeout(timeout))
            && !IsConnected(s')
            && s'.closeLog[|s'.closeLog| - 1] == s'.client.value.id
  {
  }

  /** The timed-out client stays referenced, so the next `connect` closes it
      a second time (lines 49-51 after lines 92-95). */
  lemma TimedOutClientClosedTwice<T>(s: State<T>, h: Handshake, t: int)
    requires Valid(s) && !IsConnected(s)
    ensures var s1 := Connect(s, TimedOut, t).0;
            var s2 := Connect(s1, h, t).0;
            var n := |s1.closeLog|;
            && s.nextId !in s.closeLog
            && s1.client == Some(Client(s.nextId, false))
            && n >= 1 && s1.closeLog[n - 1] == s.nextId
            && |s2.closeLog| > n && s2.closeLog[..n] == s1.closeLog && s2.closeLog[n] == s.nextId
  {
    var s1 := Connect(s, TimedOut, t).0;
    var s2 := Connect(s1, h, t).0;
    assert s.nextId !in s.closeLog;
    assert !IsConnected(s1);
  }

  /** `disconnect` is idempotent, always leaves the service disconnected,
      closes the client it held and nothing else, and leaves the queue and
      counters alone. */
  lemma DisconnectIdempotent<T>(s: State<T>)
    ensures Disconnect(Disconnect(s)) == Disconnect(s)
    ensures !IsConnected(Disconnect(s)) && Disconnect(s).client.None?
    ensures Disconnect(s).closeLog == s.closeLog + (if s.client.Some? then [s.client.value.id] else [])
    ensures Disconnect(s).queue == s.queue
    ensures Disconnect(s).messagesReceived == s.messagesReceived && Disconnect(s).errorsCount == s.errorsCount
  {
  }

  /** `onMessage` counts every message once; a decoded notification goes to
      the tail of the queue (unless the queue is full); a failed decode counts
      one error and leaves the queue alone. The connection is not touched. */
  lemma OnMessageEffect<T>(s: State<T>, d: Option<T>)
    requires Valid(s)
    ensures var s' := OnMessage(s, d);
            && s'.messagesReceived == Inc(s.messagesReceived)
            && (d.Some? && |s.queue| < QueueCapacity ==> s'.queue == s.queue + [d.value])
            && (d.Some? ==> s'.errorsCount == s.errorsCount)
            && (d.None? ==> s'.queue == s.queue && s'.errorsCount == Inc(s.errorsCount))
            && s'.client == s.client && s'.closeLog == s.closeLog
  {
  }

  /** A transport error counts one error and changes nothing else; a close
      event leaves counters, queue and the held reference in place. */
  lemma EventsLeaveConnectionReference<T>(s: State<T>, id: nat)
    ensures OnError(s) == s.(errorsCount := Inc(s.errorsCount))
    ensures var s' := OnClose(s, id);
            && s'.queue == s.queue && s'.messagesReceived == s.messagesReceived
            && s'.errorsCount == s.errorsCount && s'.closeLog == s.closeLog
            && (s'.client.Some? <==> s.client.Some?)
            && (s.client.Some? ==> s'.client.value.id == s.client.value.id)
            && (s.client.Some? && s.client.value.id == id ==> !IsConnected(s'))
  {
  }

  /** A remote close makes the held client stale: the next `connect` closes
      it before installing a new one. */
  lemma ReconnectAfterRemoteClose<T>(s: State<T>, h: Handshake, t: int)
    requires Valid(s) && IsConnected(s)
    ensures var s1 := OnClose(s, s.client.value.id);
            var s2 := Connect(s1, h, t).0;
            && !IsConnected(s1)
            && s2.closeLog[..|s.closeLog| + 1] == s.closeLog + [s.client.value.id]
            && s2.client.value.id != s.client.value.id
  {
    var s1 := OnClose(s, s.client.value.id);
    var s2 := Connect(s1, h, t).0;
    assert s2.closeLog[..|s.closeLog| + 1] == s.closeLog + [s.client.value.id];
  }

  /** `waitForNotification` removes and returns the head, or returns None
      on an empty queue; connection and counters are unaffected. */
  lemma PollIsFifo<T>(s: State<T>)
    ensures var (s', n) := Poll(s);
            && (s.queue == [] ==> n == None && s' == s)
            && (s.queue != [] ==> n == Some(s.queue[0]) && [n.value] + s'.queue == s.queue)
            && s'.client == s.client && s'.closeLog == s.closeLog
            && s'.messagesReceived == s.messagesReceived && s'.errorsCount == s.errorsCount
  {
  }

  /** `resetMetrics` leaves zero counters and an empty queue;
      `clearNotifications` empties the queue and keeps the counters. */
  lemma ResetAndClear<T>(s: State<T>)
    ensures var r := ResetMetrics(s);
            r.messagesReceived == 0 && r.errorsCount == 0 && |r.queue| == 0 && r.client == s.client
    ensures var c := ClearNotifications(s);
            |c.queue| == 0 && c.messagesReceived == s.messagesReceived && c.errorsCount == s.errorsCount
            && c.client == s.client
  {
  }

  /* ---------- sequences of operations ---------- */

  /** Inbound messages handled one after the other. */
  function Deliver<T>(s: State<T>, decode: string -> Option<T>, messages: seq<string>): State<T>
    decreases |messages|
  {
    if messages == [] then s else Deliver(OnMessage(s, decode(messages[0])), decode, messages[1..])
  }

  /** The notifications that the messages decode to, in arrival order. */
  function Decoded<T>(decode: string -> Option<T>, messages: seq<string>): seq<T>
    decreases |messages|
  {
    if messages == [] then []
    else (match decode(messages[0]) case Some(n) => [n] case None => [])
         + Decoded(decode, messages[1..])
  }

  /** How many of the messages fail to decode. */
  function Undecodable<T>(decode: string -> Option<T>, messages: seq<string>): nat
    decreases |messages|
  {
    if messages == [] then 0
    else (if decode(messages[0]).None? then 1 else 0) + Undecodable(decode, messages[1..])
  }

  lemma {:induction false} DecodedLength<T>(decode: string -> Option<T>, messages: seq<string>)
    ensures |Decoded(decode, messages)| + Undecodable(decode, messages) == |messages|
    decreases |messages|
  {
    if messages != [] {
      DecodedLength(decode, messages[1..]);
    }
  }

  /** Handling a run of messages appends exactly the decodable ones, in
      order, counts every message and every failure, and leaves the
      connection alone: a malformed message does not poison the pipeline. */
  lemma {:induction false} DeliverEffect<T>(s: State<T>, decode: string -> Option<T>, messages: seq<string>)
    requires |s.queue| + |messages| <= QueueCapacity
    ensures var s' := Deliver(s, decode, messages);
            && s'.queue == s.queue + Decoded(decode, messages)
            && s'.messagesReceived == IncBy(s.messagesReceived, |messages|)
            && s'.errorsCount == IncBy(s.errorsCount, Undecodable(decode, messages))
            && s'.client == s.client && s'.closeLog == s.closeLog && s'.nextId == s.nextId
    decreases |messages|
  {
    if messages != [] {
      var s1 := OnMessage(s, decode(messages[0]));
      assert |s1.queue| <= |s.queue| + 1;
      DeliverEffect(s1, decode, messages[1..]);
      var d := Decoded(decode, messages[1..]);
      match decode(messages[0])
      case Some(n) =>
        assert s1.queue == s.queue + [n];
        assert s.queue + [n] + d == s.queue + ([n] + d);
      case None =>
    }
  }

  /** `n` calls of `waitForNotification` in a row, with their results. */
  function Drain<T>(s: State<T>, n: nat): (State<T>, seq<Option<T>>)
    decreases n
  {
    if n == 0 then (s, [])
    else
      var (s1, x) := Poll(s);
      var (s2, xs) := Drain(s1, n - 1);
      (s2, [x] + xs)
  }

  /** Draining returns the queued notifications head first, then None once
      the queue is empty. */
  lemma {:induction false} DrainIsFifo<T>(s: State<T>, n: nat)
    ensures var (s', xs) := Drain(s, n);
            && |xs| == n
            && (forall i :: 0 <= i < n && i < |s.queue| ==> xs[i] == Some(s.queue[i]))
            && (forall i :: |s.queue| <= i < n ==> xs[i] == None)
            && s'.queue == (if n <= |s.queue| then s.queue[n..] else [])
            && s'.client == s.client && s'.messagesReceived == s.messagesReceived
            && s'.errorsCount == s.errorsCount
    decreases n
  {
    if n > 0 {
      var (s1, x) := Poll(s);
      DrainIsFifo(s1, n - 1);
      var (s2, xs) := Drain(s1, n - 1);
      assert Drain(s, n) == (s2, [x] + xs);
      if s.queue != [] {
        assert s1.queue == s.queue[1..];
        forall i | 1 <= i < n && i < |s.queue| ensures ([x] + xs)[i] == Some(s.queue[i]) {
          assert ([x] + xs)[i] == xs[i - 1];
        }
        if n <= |s.queue| {
          assert s.queue[1..][n - 1..] == s.queue[n..];
        }
      }
    }
  }

  /** End to end: N decodable messages arriving on an empty queue are
      returned by N successive `waitForNotification` calls in arrival order,
      with N messages and no errors counted, and the queue ends empty. */
  lemma ArrivalOrderDelivery<T>(s: State<T>, decode: string -> Option<T>, messages: seq<string>)
    requires s.queue == [] && |messages| <= QueueCapacity
    requires s.messagesReceived + |messages| <= IntMax
    requires forall i :: 0 <= i < |messages| ==> decode(messages[i]).Some?
    ensures var (s', xs) := Drain(Deliver(s, decode, messages), |messages|);
            && xs == seq(|messages|, i requires 0 <= i < |messages| => decode(messages[i]))
            && s'.queue == []
            && s'.messagesReceived == s.messagesReceived + |messages|
            && s'.errorsCount == s.errorsCount
  {
    var d := Deliver(s, decode, messages);
    DeliverEffect(s, decode, messages);
    AllDecodable(decode, messages);
    DecodedLength(decode, messages);
    IncByWithoutWrap(s.messagesReceived, |messages|);
    DrainIsFifo(d, |messages|);
    var (s', xs) := Drain(d, |messages|);
    forall i | 0 <= i < |messages| ensures xs[i] == decode(messages[i]) {
      assert d.queue == Decoded(decode, messages);
    }
  }

  lemma {:induction false} AllDecodable<T>(decode: string -> Option<T>, messages: seq<string>)
    requires forall i :: 0 <= i < |messages| ==> decode(messages[i]).Some?
    ensures Undecodable(decode, messages) == 0
    ensures |Decoded(decode, messages)| == |messages|
    ensures forall i :: 0 <= i < |messages| ==> Decoded(decode, messages)[i] == decode(messages[i]).value
    decreases |messages|
  {
    if messages != [] {
      AllDecodable(decode, messages[1..]);
      var rest := Decoded(decode, messages[1..]);
      assert Decoded(decode, messages) == [decode(messages[0]).value] + rest;
      forall i | 1 <= i < |messages|
        ensures Decoded(decode, messages)[i] == decode(messages[i]).value
      {
        assert messages[1..][i - 1] == messages[i];
      }
    }
  }
}
