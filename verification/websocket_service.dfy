/** `BaseWebSocketService<T>` as a class: its fields are updated in place by
    `connect`/`disconnect` and by the inbound handlers, and every method is
    proved to perform the corresponding step of `WebSocketModel`. */
module WebSocketService {
  import opened Wrappers
  import opened JavaTypes
  import M = WebSocketModel

  class NotificationService<T> {
    /** `objectMapper.readValue(message, getNotificationClass())`. */
    const decode: string -> Option<T>
    /** `getConnectionTimeout()`, in seconds, a Java int. */
    const connectionTimeout: Int32

    var client: Option<M.Client>
    var notifications: seq<T>
    var messagesReceived: Int32
    var errorsCount: Int32
    /** The `close()` calls made on transports, by identity. */
    var closeLog: seq<nat>
    /** Identity given to the next transport `connect` creates. */
    var nextId: nat

    function Model(): M.State<T>
      reads this
    {
      M.State(client, notifications, messagesReceived, errorsCount, closeLog, nextId)
    }

    ghost predicate Valid()
      reads this
    {
      M.Valid(Model())
    }

    constructor (decode: string -> Option<T>, connectionTimeout: Int32)
      ensures Valid() && Model() == M.Init()
      ensures this.decode == decode && this.connectionTimeout == connectionTimeout
    {
      this.decode := decode;
      this.connectionTimeout := connectionTimeout;
      client := None;
      notifications := [];
      messagesReceived := 0;
      errorsCount := 0;
      closeLog := [];
      nextId := 0;
    }

    /** `isConnected()`, lines 135-139. */
    method IsConnected() returns (connected: bool)
      ensures connected == M.IsConnected(Model())
      ensures connected <==> client.Some? && client.value.open
    {
      connected := client.Some? && client.value.open;
    }

    /** `connect()`, lines 43-97. */
    method Connect(handshake: M.Handshake) returns (r: Outcome<M.ConnectError>)
      requires Valid()
      modifies this
      ensures Valid()
      ensures (Model(), r) == M.Connect(old(Model()), handshake, connectionTimeout)
    {
      var connected := IsConnected();
      if connected {
        return Pass;
      }
      if client.Some? {
        closeLog := closeLog + [client.value.id];
      }
      var created := M.Client(nextId, false);
      nextId := nextId + 1;
      client := Some(created);
      match handshake {
        case Opened =>
          client := Some(created.(open := true));
          r := Pass;
        case TimedOut =>
          closeLog := closeLog + [created.id];
          r := Fail(M.ConnectionTimeout(connectionTimeout));
      }
    }

    /** `waitForNotification(timeout, unit)`, lines 107-109. */
    method WaitForNotification() returns (n: Option<T>)
      requires Valid()
      modifies this
      ensures Valid()
      ensures (Model(), n) == M.Poll(old(Model()))
    {
      if notifications == [] {
        n := None;
      } else {
        n := Some(notifications[0]);
        notifications := notifications[1..];
      }
    }

    /** `clearNotifications()`, lines 114-116. */
    method ClearNotifications()
      requires Valid()
      modifies this
      ensures Valid()
      ensures Model() == M.ClearNotifications(old(Model()))
    {
      notifications := [];
    }

    /** `disconnect()`, lines 121-130. */
    method Disconnect()
      requires Valid()
      modifies this
      ensures Valid()
      ensures Model() == M.Disconnect(old(Model()))
    {
      var localClient := client;
      client := None;
      if localClient.Some? {
        closeLog := closeLog + [localClient.value.id];
      }
    }

    /** `getMessagesReceivedCount()`, `getErrorsCount()`, lines 141-147. */
    method GetCounts() returns (received: int, errors: int)
      ensures received == Model().messagesReceived && errors == Model().errorsCount
      ensures IntMin <= received <= IntMax && IntMin <= errors <= IntMax
    {
      received, errors := messagesReceived, errorsCount;
    }

    /** `getQueueSize()`, lines 149-151: the queue length, which fits a Java int. */
    method GetQueueSize() returns (size: int)
      requires Valid()
      ensures size == |Model().queue|
      ensures 0 <= size <= IntMax
    {
      size := |notifications|;
    }

    /** `resetMetrics()`, lines 156-160. */
    method ResetMetrics()
      requires Valid()
      modifies this
      ensures Valid()
      ensures Model() == M.ResetMetrics(old(Model()))
    {
      messagesReceived := 0;
      errorsCount := 0;
      notifications := [];
    }

    /** The transport's `onMessage` callback, lines 63-75. */
    method OnMessage(message: string)
      requires Valid()
      modifies this
      ensures Valid()
      ensures Model() == M.OnMessage(old(Model()), decode(message))
    {
      messagesReceived := M.Inc(messagesReceived);
      match decode(message) {
        case Some(notification) =>
          if |notifications| < M.QueueCapacity {
            notifications := notifications + [notification];
          }
        case None =>
          errorsCount := M.Inc(errorsCount);
      }
    }

    /** The transport's `onError` callback, lines 82-87. */
    method OnError()
      requires Valid()
      modifies this
      ensures Valid()
      ensures Model() == M.OnError(old(Model()))
    {
      errorsCount := M.Inc(errorsCount);
    }

    /** A close event of transport `id`; the `onClose` callback, lines 77-80,
        only calls the no-op hook. */
    method OnClose(id: nat)
      requires Valid()
      modifies this
      ensures Valid()
      ensures Model() == M.OnClose(old(Model()), id)
    {
      if client.Some? && client.value.id == id {
        client := Some(client.value.(open := false));
      }
    }
  }

  /** The metrics scenario of the WebSocket tests: connect, reset, three
      decodable messages, three waits. The notifications come back in
      arrival order, three messages and no errors are counted, the queue ends
      empty and the service stays connected. */
  method MetricsScenario<T>(service: NotificationService<T>, m1: string, m2: string, m3: string)
    returns (received: seq<Option<T>>)
    requires service.Valid()
    requires service.decode(m1).Some? && service.decode(m2).Some? && service.decode(m3).Some?
    modifies service
    ensures service.Valid()
    ensures received == [service.decode(m1), service.decode(m2), service.decode(m3)]
    ensures service.messagesReceived == 3 && service.errorsCount == 0 && service.notifications == []
    ensures M.IsConnected(service.Model())
  {
    var r := service.Connect(M.Opened);
    service.ResetMetrics();
    service.OnMessage(m1);
    service.OnMessage(m2);
    service.OnMessage(m3);
    var n1 := service.WaitForNotification();
    var n2 := service.WaitForNotification();
    var n3 := service.WaitForNotification();
    received := [n1, n2, n3];
  }
}
