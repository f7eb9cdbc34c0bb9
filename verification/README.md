# A Dafny model of the test-framework core of `test-task`

The repository is a Java test framework for a todo REST and WebSocket
service. This project models its core in Dafny and proves what that code
promises.

- **WebSocket notification client.** `BaseWebSocketService` becomes a class, `WebSocketService.NotificationService`, whose fields are the held client, the notification queue and the two counters. Each method is proved to perform one step of a pure state machine, `WebSocketModel`. The lemmas about that machine state connect idempotence, the timeout path, FIFO delivery, the counters and idempotent disconnect.
- **Payload builder.** `PayloadBuilder` is a class over a map. It is updated in place by `with` and by the loop of `without`; `build` hands out the current fields as a map value.
- **CRUD string logic.** From `BaseCrudService`: the resource name taken from the resource path, the two JSON-schema file names, and the request each raw CRUD method sends (verb, path, query parameters). Identifiers are rendered in decimal, and that rendering is proved to read back.
- **Registries.** `ModelBuilder`, `TestDataRegistry` and `ApiProvider`. Suppliers are objects whose n-th value is a parameter. The registries are classes over maps, and a lookup of a missing class returns an error value.
- **Error messages.** The `ErrorMessages` templates and constants.
- **Basic authentication.** `AuthTools.encodeBasicAuth`: the HTTP Basic credentials of section 2 of RFC 7617. These are built on the UTF-8 encoding of RFC 3629 and the padded Base64 of section 4 of RFC 4648, with a proved round trip.
- **Assertions.** `ResponseAssert`, `TodoAssert` and `TodoNotificationAssert` become functions from the actual record (null is `None`) to `Pass` or `Fail(reason)`. A chain of checks stops at its first failure.

The model follows the code rather than the prose description of the system in three places:

- The notification queue is a `LinkedBlockingQueue` built without a capacity. It therefore holds at most `Integer.MAX_VALUE` elements, and `offer` on a full queue drops the element silently. The description calls the queue unbounded.
- The counters are `AtomicInteger`s and wrap around at 2^31 (`WebSocketModel.Inc`).
- `resourceName` uses `replaceAll("s$", "")`. Java's `$` also matches just before a line terminator that ends the input, so the trailing `s` is removed there too (`CrudPaths.ResourceNameBeforeLineTerminator`).

Inputs the code takes from outside are parameters of the model:

- The handshake outcome (`Opened` or `TimedOut`) is an argument of `connect`.
- The JSON decoder is a function `string -> Option<T>`. `None` covers both a parse exception and a JSON `null`; for `null`, the `offer` call throws inside the same `try`.
- The supplier's values are a function `nat -> T`.
- Transports are values with an identity and an `isOpen()` flag. A log of identities records each `close()` call the service makes.

## Model

| member | source | states |
|---|---|---|
| `Wrappers.AndThen` | src/main/java/ru/gordeev/core/assertions/ResponseAssert.java:19-27 | a chain of two checks passes iff both pass, and a failing first check is the chain's failure |
| `Base64.EncodeLength` | src/main/java/ru/gordeev/core/helpers/AuthTools.java:13 | the padded encoding of n octets is 4 * ceil(n / 3) characters long |
| `Base64.Encode` | src/main/java/ru/gordeev/core/helpers/AuthTools.java:13 | `Base64.getEncoder().encodeToString`; no ensures of its own, its contract is `EncodeLength`, `EncodeAlphabet`, `DecodeEncode` and `EncodeInjective` |
| `Base64.Decode` | src/main/java/ru/gordeev/core/helpers/AuthTools.java:13 | the decoder of section 4 of RFC 4648, the inverse that `DecodeEncode` pairs with the encoder (the source only encodes); rejects bad lengths, characters and padding |
| `Base64.EncodeAlphabet` | src/main/java/ru/gordeev/core/helpers/AuthTools.java:13 | every character of an encoding is in the standard alphabet or is "=", and "=" occurs only among the last two |
| `Base64.DecodeEncode` | src/main/java/ru/gordeev/core/helpers/AuthTools.java:13 | decoding an encoding gives the octets back |
| `Base64.EncodeInjective` | src/main/java/ru/gordeev/core/helpers/AuthTools.java:13 | distinct octet sequences have distinct encodings |
| `AuthTools.Utf8CharDecodes` | src/main/java/ru/gordeev/core/helpers/AuthTools.java:13 | the UTF-8 bytes of a character carry their length in the lead byte and decode back to the character |
| `AuthTools.Utf8Char` | src/main/java/ru/gordeev/core/helpers/AuthTools.java:13 | one to four bytes per character; `Utf8CharDecodes` states that they decode back to it |
| `AuthTools.Utf8` | src/main/java/ru/gordeev/core/helpers/AuthTools.java:13 | `getBytes()` under UTF-8; no ensures of its own, its contract is `Utf8Injective` and, for concatenation, `CredentialBytes` |
| `AuthTools.Credentials` | src/main/java/ru/gordeev/core/helpers/AuthTools.java:12 | `username + ":" + password`; no ensures of its own, its contract is `CredentialBytes` |
| `AuthTools.EncodeBasicAuth` | src/main/java/ru/gordeev/core/helpers/AuthTools.java:11-14 | `encodeBasicAuth`; no ensures of its own, its contract is `BasicAuthShape`, `ColonFreeUsernameIsUnambiguous` and `ColonInUsernameIsAmbiguous` |
| `AuthTools.Utf8Injective` | src/main/java/ru/gordeev/core/helpers/AuthTools.java:13 | `getBytes()` under UTF-8 maps distinct strings to distinct byte sequences |
| `AuthTools.CredentialBytes` | src/main/java/ru/gordeev/core/helpers/AuthTools.java:12-13 | the credential bytes are the user-id bytes, exactly one colon byte, then the password bytes |
| `AuthTools.BasicAuthShape` | src/main/java/ru/gordeev/core/helpers/AuthTools.java:11-14 | the header starts with "Basic ", the rest is the Base64 of the credential bytes, 4 * ceil(n / 3) long, and it decodes back to those bytes |
| `AuthTools.ColonInUsernameIsAmbiguous` | src/main/java/ru/gordeev/core/helpers/AuthTools.java:11-13 | ("a:b", "c") and ("a", "b:c") give the same header; a colon in the user-id is not rejected |
| `AuthTools.SplitAtFirstColon` | src/main/java/ru/gordeev/core/helpers/AuthTools.java:12 | with colon-free user-ids, bytes user ":" password determine both parts |
| `AuthTools.ColonFreeUsernameIsUnambiguous` | src/main/java/ru/gordeev/core/helpers/AuthTools.java:11-13 | with colon-free user-ids, equal headers mean equal user-ids and equal passwords |
| `WebSocketModel.IncByWithoutWrap` | src/main/java/ru/gordeev/core/websocket/BaseWebSocketService.java:64-74 | n increments of a counter that stays below 2^31 add exactly n |
| `WebSocketModel.Inc` | src/main/java/ru/gordeev/core/websocket/BaseWebSocketService.java:65 | `incrementAndGet`: the result is again a Java int, and `Integer.MAX_VALUE` wraps to `Integer.MIN_VALUE`; below the wrap it adds one, as `IncByWithoutWrap` states for n = 1 |
| `WebSocketModel.IncBy` | src/main/java/ru/gordeev/core/websocket/BaseWebSocketService.java:64-74 | n successive increments; no ensures of its own, `IncByWithoutWrap` gives its value below the wrap and `DeliverEffect` uses it for both counters |
| `WebSocketModel.Init` | src/main/java/ru/gordeev/core/websocket/BaseWebSocketService.java:22-29 | the initial state (no client, empty queue, zero counters) satisfies the state invariant |
| `WebSocketModel.IsConnected` | src/main/java/ru/gordeev/core/websocket/BaseWebSocketService.java:135-139 | no ensures of its own; `NotificationService.IsConnected` ties it to the fields, and `ConnectReplacesClient`, `ConnectTimeout` and `DisconnectIdempotent` state when it holds |
| `WebSocketModel.Connect` | src/main/java/ru/gordeev/core/websocket/BaseWebSocketService.java:43-97 | no ensures of its own; its contract is `ConnectWhenConnected`, `ConnectReplacesClient`, `ConnectTimeout` and `StepsPreserveValid` |
| `WebSocketModel.Disconnect` | src/main/java/ru/gordeev/core/websocket/BaseWebSocketService.java:121-130 | no ensures of its own; its contract is `DisconnectIdempotent` |
| `WebSocketModel.OnMessage` | src/main/java/ru/gordeev/core/websocket/BaseWebSocketService.java:63-75 | no ensures of its own; its contract is `OnMessageEffect` |
| `WebSocketModel.OnError` | src/main/java/ru/gordeev/core/websocket/BaseWebSocketService.java:82-87 | no ensures of its own; its contract is `EventsLeaveConnectionReference` |
| `WebSocketModel.OnClose` | src/main/java/ru/gordeev/core/websocket/BaseWebSocketService.java:77-80 | no ensures of its own; its contract is `EventsLeaveConnectionReference` and `ReconnectAfterRemoteClose` |
| `WebSocketModel.Poll` | src/main/java/ru/gordeev/core/websocket/BaseWebSocketService.java:107-109 | no ensures of its own; its contract is `PollIsFifo` |
| `WebSocketModel.ClearNotifications` | src/main/java/ru/gordeev/core/websocket/BaseWebSocketService.java:114-116 | no ensures of its own; its contract is `ResetAndClear` |
| `WebSocketModel.ResetMetrics` | src/main/java/ru/gordeev/core/websocket/BaseWebSocketService.java:156-160 | no ensures of its own; its contract is `ResetAndClear` |
| `WebSocketModel.Deliver` | src/main/java/ru/gordeev/core/websocket/BaseWebSocketService.java:63-75 | a run of `onMessage` events; no ensures of its own, its contract is `DeliverEffect` and `ArrivalOrderDelivery` |
| `WebSocketModel.Drain` | src/main/java/ru/gordeev/core/websocket/BaseWebSocketService.java:107-109 | n successive waits; no ensures of its own, its contract is `DrainIsFifo` |
| `WebSocketModel.StepsPreserveValid` | src/main/java/ru/gordeev/core/websocket/BaseWebSocketService.java:43-160 | every operation and event keeps the queue within capacity and the transport identities consistent |
| `WebSocketModel.ConnectWhenConnected` | src/main/java/ru/gordeev/core/websocket/BaseWebSocketService.java:44-47 | `connect` while connected returns at once and changes nothing |
| `WebSocketModel.ConnectReplacesClient` | src/main/java/ru/gordeev/core/websocket/BaseWebSocketService.java:49-95 | otherwise the held client is closed first, one new client is installed, the only other `close()` is of the new client on timeout, the next identity advances by one, queue and counters stay, and the call succeeds iff the open event came, iff the service is then connected |
| `WebSocketModel.ConnectTimeout` | src/main/java/ru/gordeev/core/websocket/BaseWebSocketService.java:92-95 | on timeout the new client is closed, the error carries the configured timeout, and the service is not connected |
| `WebSocketModel.TimedOutClientClosedTwice` | src/main/java/ru/gordeev/core/websocket/BaseWebSocketService.java:49-95 | the timed-out client stays referenced, so the next `connect` closes it a second time |
| `WebSocketModel.DisconnectIdempotent` | src/main/java/ru/gordeev/core/websocket/BaseWebSocketService.java:121-130 | `disconnect` is idempotent, leaves no client and the service disconnected, closes only the held client, and keeps queue and counters |
| `WebSocketModel.OnMessageEffect` | src/main/java/ru/gordeev/core/websocket/BaseWebSocketService.java:63-75 | each message counts once; a decoded one joins the tail of the queue; a failed decode counts one error and leaves the queue; the connection is untouched |
| `WebSocketModel.EventsLeaveConnectionReference` | src/main/java/ru/gordeev/core/websocket/BaseWebSocketService.java:77-87 | an error event counts one error only; a close event keeps counters, queue and the held reference, and a close of the held client leaves the service disconnected |
| `WebSocketModel.ReconnectAfterRemoteClose` | src/main/java/ru/gordeev/core/websocket/BaseWebSocketService.java:45-56 | after a remote close the next `connect` closes the stale client and installs a different one |
| `WebSocketModel.PollIsFifo` | src/main/java/ru/gordeev/core/websocket/BaseWebSocketService.java:107-109 | a wait returns and removes the head, or returns null on an empty queue; connection and counters are unaffected |
| `WebSocketModel.ResetAndClear` | src/main/java/ru/gordeev/core/websocket/BaseWebSocketService.java:114-160 | `resetMetrics` leaves zero counters and an empty queue; `clearNotifications` empties the queue and keeps the counters |
| `WebSocketModel.DecodedLength` | src/main/java/ru/gordeev/core/websocket/BaseWebSocketService.java:66-74 | every message is either decoded or counted as undecodable |
| `WebSocketModel.DeliverEffect` | src/main/java/ru/gordeev/core/websocket/BaseWebSocketService.java:63-75 | a run of messages appends exactly the decodable ones in arrival order and counts every message and every failure; a malformed message does not affect later ones |
| `WebSocketModel.DrainIsFifo` | src/main/java/ru/gordeev/core/websocket/BaseWebSocketService.java:107-109 | n successive waits return the queued notifications head first, then null |
| `WebSocketModel.AllDecodable` | src/main/java/ru/gordeev/core/websocket/BaseWebSocketService.java:66-69 | when every message decodes, no error is counted and the decoded list lines up with the messages |
| `WebSocketModel.ArrivalOrderDelivery` | src/test/java/todo/WebSocketTest.java:248-283 | N decodable messages on an empty queue come back from N waits in arrival order, N messages and no errors are counted, and the queue ends empty |
| `WebSocketService.NotificationService.constructor` | src/main/java/ru/gordeev/core/websocket/BaseWebSocketService.java:22-29 | a new service holds no client, an empty queue and zero counters |
| `WebSocketService.NotificationService.IsConnected` | src/main/java/ru/gordeev/core/websocket/BaseWebSocketService.java:135-139 | connected iff a client is held and it is open |
| `WebSocketService.NotificationService.Connect` | src/main/java/ru/gordeev/core/websocket/BaseWebSocketService.java:43-97 | performs the `connect` step of the state machine on the fields |
| `WebSocketService.NotificationService.WaitForNotification` | src/main/java/ru/gordeev/core/websocket/BaseWebSocketService.java:107-109 | performs the poll step: the head or null |
| `WebSocketService.NotificationService.ClearNotifications` | src/main/java/ru/gordeev/core/websocket/BaseWebSocketService.java:114-116 | performs the clear step |
| `WebSocketService.NotificationService.Disconnect` | src/main/java/ru/gordeev/core/websocket/BaseWebSocketService.java:121-130 | performs the disconnect step |
| `WebSocketService.NotificationService.GetCounts` | src/main/java/ru/gordeev/core/websocket/BaseWebSocketService.java:141-147 | returns both counters, each a Java int |
| `WebSocketService.NotificationService.GetQueueSize` | src/main/java/ru/gordeev/core/websocket/BaseWebSocketService.java:149-151 | returns the queue length, which fits a Java int |
| `WebSocketService.NotificationService.ResetMetrics` | src/main/java/ru/gordeev/core/websocket/BaseWebSocketService.java:156-160 | performs the reset step |
| `WebSocketService.NotificationService.OnMessage` | src/main/java/ru/gordeev/core/websocket/BaseWebSocketService.java:63-75 | performs the message step with the decoder's result |
| `WebSocketService.NotificationService.OnError` | src/main/java/ru/gordeev/core/websocket/BaseWebSocketService.java:82-87 | performs the error step |
| `WebSocketService.NotificationService.OnClose` | src/main/java/ru/gordeev/core/websocket/BaseWebSocketService.java:77-80 | performs the close step |
| `WebSocketService.MetricsScenario` | src/test/java/todo/WebSocketTest.java:248-283 | connect, reset, three messages, three waits: the notifications come back in order, counters read 3 and 0, the queue is empty, the service stays connected |
| `PayloadBuilding.PayloadBuilder.constructor` | src/main/java/ru/gordeev/core/data/PayloadBuilder.java:17-19 | the builder starts with the given fields |
| `PayloadBuilding.PayloadBuilder.Builder` | src/main/java/ru/gordeev/core/data/PayloadBuilder.java:24-26 | a fresh builder with no fields |
| `PayloadBuilding.PayloadBuilder.With` | src/main/java/ru/gordeev/core/data/PayloadBuilder.java:43-46 | the field maps to the value (a null value keeps the field), other fields are unchanged, and the same builder is returned |
| `PayloadBuilding.PayloadBuilder.Without` | src/main/java/ru/gordeev/core/data/PayloadBuilder.java:51-56 | every listed field is removed, absent ones are ignored, other fields keep their values, and the same builder is returned |
| `PayloadBuilding.PayloadBuilder.Build` | src/main/java/ru/gordeev/core/data/PayloadBuilder.java:62-64 | the result equals the current fields |
| `PayloadBuilding.BuildIsSnapshot` | src/main/java/ru/gordeev/core/data/PayloadBuilder.java:62-64 | a build taken before a later `with` equals the fields at that moment, and a second build sees the edit |
| `PayloadBuilding.WithThenWithout` | src/main/java/ru/gordeev/core/data/PayloadBuilder.java:43-56 | a chain `with(...).without(...)` builds the sequential composition of the two updates |
| `CrudPaths.StripLeadingSlash` | src/main/java/ru/gordeev/core/api/BaseCrudService.java:30 | `^/` removes the first character exactly when it is "/" |
| `CrudPaths.ResourceName` | src/main/java/ru/gordeev/core/api/BaseCrudService.java:30 | the name is at most two characters shorter than the path |
| `CrudPaths.StripTrailingS` | src/main/java/ru/gordeev/core/api/BaseCrudService.java:30 | `replaceAll("s$", "")` with Java's `$`; no ensures of its own, its contract is `ResourceNameStrips` and `ResourceNameBeforeLineTerminator` |
| `CrudPaths.ResourceNameStrips` | src/main/java/ru/gordeev/core/api/BaseCrudService.java:29-30 | for a path without a final line terminator, the name is the path without one leading "/" (if present) and without one trailing "s" (exactly when the rest ends with "s") |
| `CrudPaths.ResourceNameOfPluralPath` | src/main/java/ru/gordeev/core/api/BaseCrudService.java:29-30 | "/" + x + "s" names x, whatever x is; "/todos" names "todo" |
| `CrudPaths.ResourceNameBeforeLineTerminator` | src/main/java/ru/gordeev/core/api/BaseCrudService.java:30 | an "s" before a final line terminator is removed too, and the terminator stays |
| `CrudPaths.SingleSchema` | src/main/java/ru/gordeev/core/api/BaseCrudService.java:124-126 | `String.format("schemas/%s-schema.json", resourceName)`: 20 characters longer than the resource name; `SingleSchemaInjective` and `SchemaNamesCollide` state when two names coincide |
| `CrudPaths.ListSchema` | src/main/java/ru/gordeev/core/api/BaseCrudService.java:131-133 | `String.format("schemas/%s-list-schema.json", resourceName)`: 25 characters longer than the resource name; `ListSchemaInjective` and `SchemaNamesCollide` state when two names coincide |
| `CrudPaths.SingleSchemaInjective` | src/main/java/ru/gordeev/core/api/BaseCrudService.java:124-126 | two single-entity schema names are equal iff the resource names are |
| `CrudPaths.ListSchemaInjective` | src/main/java/ru/gordeev/core/api/BaseCrudService.java:131-133 | two list schema names are equal iff the resource names are |
| `CrudPaths.SchemaNamesCollide` | src/main/java/ru/gordeev/core/api/BaseCrudService.java:124-133 | a single schema name equals a list schema name iff the first resource is named like the second plus "-list"; one service's two names always differ |
| `CrudPaths.DigitChar` | src/main/java/ru/gordeev/core/api/BaseCrudService.java:100 | a digit value becomes a decimal digit character |
| `CrudPaths.Digits` | src/main/java/ru/gordeev/core/api/BaseCrudService.java:100 | the decimal rendering of a natural number is non-empty and all digits |
| `CrudPaths.Decimal` | src/main/java/ru/gordeev/core/api/BaseCrudService.java:100 | the rendering of a long starts with "-" iff the value is negative |
| `CrudPaths.ParseDigitsOfDigits` | src/main/java/ru/gordeev/core/api/BaseCrudService.java:100 | the digits of n read back as n |
| `CrudPaths.ParseDecimalOfDecimal` | src/main/java/ru/gordeev/core/api/BaseCrudService.java:100 | the rendering of any long reads back as that long |
| `CrudPaths.ItemPath` | src/main/java/ru/gordeev/core/api/BaseCrudService.java:100 | an entity path is longer than the collection path plus the separator |
| `CrudPaths.ItemIdOfItemPath` | src/main/java/ru/gordeev/core/api/BaseCrudService.java:99-111 | an entity path names its identifier under the collection path, and the collection path names none |
| `CrudPaths.ItemId` | src/main/java/ru/gordeev/core/api/BaseCrudService.java:99-111 | reads the identifier back from an entity path; the inverse of `ItemPath` by `ItemIdOfItemPath` |
| `CrudPaths.ItemPathInjective` | src/main/java/ru/gordeev/core/api/BaseCrudService.java:99-111 | two entity paths are equal iff the identifiers are |
| `CrudPaths.CreateRaw` | src/main/java/ru/gordeev/core/api/BaseCrudService.java:94-96 | create POSTs the payload to the collection path itself, which names no entity |
| `CrudPaths.GetByIdRaw` | src/main/java/ru/gordeev/core/api/BaseCrudService.java:99-101 | get-by-id is a GET of the path that names the identifier |
| `CrudPaths.UpdateRaw` | src/main/java/ru/gordeev/core/api/BaseCrudService.java:104-106 | update PUTs the payload to the path that names the identifier |
| `CrudPaths.DeleteRaw` | src/main/java/ru/gordeev/core/api/BaseCrudService.java:109-111 | delete is a DELETE of the path that names the identifier |
| `CrudPaths.ItemRequestsShareOnePath` | src/main/java/ru/gordeev/core/api/BaseCrudService.java:99-111 | get-by-id, update and delete of one identifier address the same path |
| `CrudPaths.GetAllRaw` | src/main/java/ru/gordeev/core/api/BaseCrudService.java:114-119 | a GET of the collection; the overload with parameters is used iff the map is non-null and non-empty, and then it carries that map |
| `CrudPaths.GetAll` | src/main/java/ru/gordeev/core/api/BaseCrudService.java:88-90 | listing without arguments is a plain GET of the collection |
| `CrudPaths.GetAllRawSendsParams` | src/main/java/ru/gordeev/core/api/BaseCrudService.java:114-119 | the query sent is the given map in every case, and a null map sends the same request as an empty one |
| `CrudPaths.QueryOf` | src/main/java/ru/gordeev/core/api/BaseCrudService.java:114-119 | the query a listing request sends; no ensures of its own, `GetAllRawSendsParams` states its value |
| `TestData.Supplier.constructor` | src/main/java/ru/gordeev/core/data/ModelBuilder.java:18 | a supplier starts before its first value |
| `TestData.Supplier.Get` | src/main/java/ru/gordeev/core/data/ModelBuilder.java:35 | each call yields the next value and advances by one |
| `TestData.Generated` | src/main/java/ru/gordeev/core/data/ModelBuilder.java:50-56 | n successive calls yield n values, the i-th from call start + i |
| `TestData.ModelBuilder.Of` | src/main/java/ru/gordeev/core/data/ModelBuilder.java:27-29 | the builder draws from the given supplier |
| `TestData.ModelBuilder.Build` | src/main/java/ru/gordeev/core/data/ModelBuilder.java:34-36 | exactly one supplier value |
| `TestData.ModelBuilder.BuildWith` | src/main/java/ru/gordeev/core/data/ModelBuilder.java:41-45 | exactly one supplier value, as the customizer leaves it |
| `TestData.ModelBuilder.BuildList` | src/main/java/ru/gordeev/core/data/ModelBuilder.java:50-56 | count values for a positive count and none otherwise, each from its own supplier call, in order |
| `TestData.Message` | src/main/java/ru/gordeev/core/data/TestDataRegistry.java:34-36 | the exception text is the fixed prefix followed by the class's simple name |
| `TestData.TestDataRegistry.constructor` | src/main/java/ru/gordeev/core/data/TestDataRegistry.java:17 | a new registry has no builders |
| `TestData.TestDataRegistry.Register` | src/main/java/ru/gordeev/core/data/TestDataRegistry.java:22-25 | a new builder over the supplier replaces any earlier one for the class; other classes keep theirs |
| `TestData.TestDataRegistry.GetBuilderFor` | src/main/java/ru/gordeev/core/data/TestDataRegistry.java:31-39 | the registered builder iff the class is registered, otherwise the exception naming the class |
| `TestData.TestDataRegistry.Valid` | src/main/java/ru/gordeev/core/data/TestDataRegistry.java:44-46 | the next value of the registered supplier, or the exception for an unregistered class |
| `TestData.TestDataRegistry.ValidWith` | src/main/java/ru/gordeev/core/data/TestDataRegistry.java:51-53 | the next value, customized, or the exception for an unregistered class |
| `TestData.RegisterThenValid` | src/main/java/ru/gordeev/core/data/TestDataRegistry.java:22-46 | after registering, `valid` yields the supplier's next value; after re-registering, the second supplier's |
| `ApiProviding.Lookup` | src/main/java/ru/gordeev/core/api/ApiProvider.java:31-40 | the instance iff one is registered and non-null, otherwise the exception naming the class and listing the registered classes |
| `ApiProviding.ApiProvider.constructor` | src/main/java/ru/gordeev/core/api/ApiProvider.java:15 | a new provider has no services |
| `ApiProviding.ApiProvider.Register` | src/main/java/ru/gordeev/core/api/ApiProvider.java:21-23 | the class maps to the instance, null included; others are unchanged |
| `ApiProviding.ApiProvider.GetService` | src/main/java/ru/gordeev/core/api/ApiProvider.java:31-40 | answers the lookup on the registered services |
| `ApiProviding.LookupAfterRegister` | src/main/java/ru/gordeev/core/api/ApiProvider.java:21-39 | after registering a non-null instance the lookup returns it, and other successful lookups are unchanged |
| `ApiProviding.RegisteredNullFailsLikeAbsent` | src/main/java/ru/gordeev/core/api/ApiProvider.java:22-38 | a registered null fails like an absent class, naming it, except that it is listed among the available classes |
| `ApiProviding.ReRegisterOverwrites` | src/main/java/ru/gordeev/core/api/ApiProvider.java:21-39 | registering twice and looking up returns the second instance |
| `ApiProviding.RegisterNullThenGet` | src/main/java/ru/gordeev/core/api/ApiProvider.java:21-39 | registering null and looking up fails, naming the class |
| `ErrorMessages.MissingField` | src/main/java/ru/gordeev/core/errors/ErrorMessages.java:15-17 | the missing-field template: 48 characters longer than the field name; `MissingFieldNameOfMissingField` reads the name back and `MissingFieldInjective` follows |
| `ErrorMessages.InvalidType` | src/main/java/ru/gordeev/core/errors/ErrorMessages.java:19-21 | the invalid-type template: 57 characters longer than its two arguments together; `NullNotAStringIsInvalidType` ties it to the constant and `InvalidTypeIsAmbiguous` shows two argument pairs giving one message |
| `ErrorMessages.TemplatesSharePrefix` | src/main/java/ru/gordeev/core/errors/ErrorMessages.java:15-21 | both templates start with "Request body deserialize error: " and never produce the same text |
| `ErrorMessages.NullNotAStringIsInvalidType` | src/main/java/ru/gordeev/core/errors/ErrorMessages.java:10-21 | the constant equals `invalidType("null", "a string")` |
| `ErrorMessages.MissingFieldNameOfMissingField` | src/main/java/ru/gordeev/core/errors/ErrorMessages.java:15-17 | the field name reads back from a missing-field message |
| `ErrorMessages.MissingFieldName` | src/main/java/ru/gordeev/core/errors/ErrorMessages.java:15-17 | the field name read back from a missing-field message; the inverse of `MissingField` by `MissingFieldNameOfMissingField` |
| `ErrorMessages.MissingFieldInjective` | src/main/java/ru/gordeev/core/errors/ErrorMessages.java:15-17 | distinct field names give distinct messages |
| `ErrorMessages.InvalidTypeIsAmbiguous` | src/main/java/ru/gordeev/core/errors/ErrorMessages.java:19-21 | two different argument pairs can give the same invalid-type message |
| `TodoModel.TypeValue` | src/main/java/ru/gordeev/todo/model/TodoNotification.java:32-36 | the `@JsonValue` of a notification type reads back as that type; `TypeValueRoundTrip` adds that only "new_todo" reads as `NEW_TODO` |
| `TodoModel.TypeValueRoundTrip` | src/main/java/ru/gordeev/todo/model/TodoNotification.java:32-36 | `NEW_TODO` is serialised as "new_todo", and only that text reads back as it |
| `TodoModel.ParseType` | src/main/java/ru/gordeev/todo/model/TodoNotification.java:32-36 | reading a JSON value as the enum; no ensures of its own, its contract is `TypeValueRoundTrip` |
| `TodoAssert.FieldEquals` | src/main/java/ru/gordeev/todo/assertions/TodoAssert.java:23 | boxed `equals`: passes iff the actual field is non-null and equals the expected one; a null actual field throws |
| `TodoAssert.IsNotNull` | src/main/java/ru/gordeev/todo/assertions/TodoAssert.java:21 | passes iff the actual record is non-null |
| `TodoAssert.HasId` | src/main/java/ru/gordeev/todo/assertions/TodoAssert.java:20-28 | passes iff the todo is non-null and its id is non-null and equals the expected id |
| `TodoAssert.HasText` | src/main/java/ru/gordeev/todo/assertions/TodoAssert.java:30-38 | passes iff the todo is non-null and its text is non-null and equals the expected text |
| `TodoAssert.HasCompleted` | src/main/java/ru/gordeev/todo/assertions/TodoAssert.java:40-49 | passes iff the todo is non-null and its flag is non-null and equals the expected flag |
| `TodoAssert.MatchesExpectedIff` | src/main/java/ru/gordeev/todo/assertions/TodoAssert.java:51-57 | `matchesExpected` passes iff the actual todo equals the expected one and has no null field |
| `TodoAssert.MatchesExpected` | src/main/java/ru/gordeev/todo/assertions/TodoAssert.java:51-57 | `matchesExpected`; no ensures of its own, its contract is `MatchesExpectedIff` and `MatchesExpectedFirstFailure` |
| `TodoAssert.MatchesExpectedFirstFailure` | src/main/java/ru/gordeev/todo/assertions/TodoAssert.java:51-57 | a null actual fails first, then a null expected, then the first mismatch in the order id, text, completed |
| `TodoNotificationAssert.NotificationIsNotNull` | src/main/java/ru/gordeev/todo/assertions/TodoNotificationAssert.java:19-22 | passes iff the notification is non-null |
| `TodoNotificationAssert.HasType` | src/main/java/ru/gordeev/todo/assertions/TodoNotificationAssert.java:27-37 | passes iff the type is non-null and equals the expected one; a null type throws |
| `TodoNotificationAssert.HasDataMatching` | src/main/java/ru/gordeev/todo/assertions/TodoNotificationAssert.java:41-46 | a null notification fails first, and null data fails before any field comparison |
| `TodoNotificationAssert.HasDataMatchingIsMatchesExpected` | src/main/java/ru/gordeev/todo/assertions/TodoNotificationAssert.java:41-66 | with data present, the verdict and first failure are those of `matchesExpected` on the data, so it passes iff the data equals the expected todo with no null field |
| `ResponseAssert.ContainsIff` | src/main/java/ru/gordeev/core/assertions/ResponseAssert.java:37 | `String.contains` holds iff the text occurs at some position |
| `ResponseAssert.Contains` | src/main/java/ru/gordeev/core/assertions/ResponseAssert.java:37 | `String.contains`; no ensures of its own, its contract is `ContainsIff` |
| `ResponseAssert.HasStatusCode` | src/main/java/ru/gordeev/core/assertions/ResponseAssert.java:19-28 | passes iff the response is non-null and its status equals the expected one |
| `ResponseAssert.HasBodyContaining` | src/main/java/ru/gordeev/core/assertions/ResponseAssert.java:33-42 | passes iff the response is non-null and the text occurs in its body |
| `ResponseAssert.HasContentType` | src/main/java/ru/gordeev/core/assertions/ResponseAssert.java:47-56 | passes iff the response is non-null and the text occurs in its content type |
| `ResponseAssert.HasHeader` | src/main/java/ru/gordeev/core/assertions/ResponseAssert.java:61-70 | passes iff the response is non-null and has the header with exactly that value; an absent header fails |
| `ResponseAssert.IsSuccess` | src/main/java/ru/gordeev/core/assertions/ResponseAssert.java:75-84 | passes iff the response is non-null and 200 <= status < 300 |
| `ResponseAssert.IsClientError` | src/main/java/ru/gordeev/core/assertions/ResponseAssert.java:89-98 | passes iff the response is non-null and 400 <= status < 500 |
| `ResponseAssert.StatusClassesExclusive` | src/main/java/ru/gordeev/core/assertions/ResponseAssert.java:75-98 | no response is both a success and a client error; an exact status check implies the range check covering it |
| `ResponseAssert.Run` | src/main/java/ru/gordeev/core/assertions/ResponseAssert.java:19-98 | every check fails with the null check on a null response |
| `ResponseAssert.ChainPassesIffAll` | src/main/java/ru/gordeev/core/assertions/ResponseAssert.java:19-98 | a chain of checks passes iff every check in it passes |
| `ResponseAssert.Chain` | src/main/java/ru/gordeev/core/assertions/ResponseAssert.java:19-98 | a fluent chain of checks; no ensures of its own, its contract is `ChainPassesIffAll`, `ChainFirstFailure` and `NullResponseFailsFirst` |
| `ResponseAssert.ChainFirstFailure` | src/main/java/ru/gordeev/core/assertions/ResponseAssert.java:19-98 | a failing chain reports the failure of its first failing check |
| `ResponseAssert.NullResponseFailsFirst` | src/main/java/ru/gordeev/core/assertions/ResponseAssert.java:20-27 | every non-empty chain on a null response fails with the null check |

## Left out

- Concurrency in `BaseWebSocketService` is not modelled: the `synchronized` blocks, the transport's event thread and the atomicity of the counters. Operations and events run one at a time.
- `CountDownLatch` waits and wall-clock timeouts are not modelled. The handshake outcome is an input; `waitForNotification` returns at once, and its timeout, `InterruptedException` and time unit are left out.
- A possible race is not captured. `onOpen` counts down the latch through the field, so a late open event of a stale client could release the wait of a newer `connect`.
- `onConnect`, `onNotification`, `onDisconnect` and `onError` are protected hooks with empty bodies. They are left out.
- The `org.java_websocket` client and URI handling are a foreign library. A transport is only an identity and an open flag.
- Jackson decoding is an abstract function. The model does not separate a parse failure from a JSON `null`, because both end in the same `catch`.
- `PayloadBuilder.from` is left out; it is Jackson `convertValue`. Payload values are limited to null, text, number and boolean.
- The HTTP exchanges of `BaseCrudService` are left out: RestAssured, status checks, schema validation and entity extraction. So are the `TodoApiService` overrides, such as the authorised delete and `findByIdInList`. A raw method yields the request it would send.
- `ApiProviding.ProviderError`: the listing order of the available classes, which is `HashMap` key-set order, is left out. Only the set of classes is modelled.
- `ModelBuilder`'s Faker, UUID and clock helpers (`uniqueText`, `randomText` and the others) are left out. They are random and clock-based.
- The customizer of `build(customizer)` mutates the entity in place. It is modelled as a function returning the customized value, so aliasing of the entity is not captured.
- `TestDataRegistry` and `ApiProvider` are modelled for one entity or service type per registry. Java's unchecked cast over `Class<?>` keys has no counterpart.
- The failure messages of the assertion classes are left out. A failure records its reason (which check, which field), not the formatted text.
- Null expected arguments of the `ResponseAssert` checks are not modelled. Those checks take strings and an int.
- Header lookup in `ResponseAssert.HasHeader` is by exact name. RestAssured's case-insensitive name matching and repeated headers are left out.
- `AuthTools.Utf8` assumes the default charset is UTF-8, the default since Java 18. Null user-ids and passwords, which Java renders as "null", are not modelled.
- `PayloadBuilding.PayloadBuilder`: map identity is not represented. A Dafny `map` is a value, so the copies made at PayloadBuilder.java:18 and :63 and the snapshot property of `BuildIsSnapshot` follow from value semantics; the model would be the same if the Java shared the map.
- `PayloadBuilding.PayloadBuilder.With`: a null field name, which `HashMap` accepts as a key, is not representable; field names are strings.
- `CrudPaths.ItemPath`, `CrudPaths.GetByIdRaw`, `CrudPaths.UpdateRaw`, `CrudPaths.DeleteRaw`: the identifier is a non-null `Long`. Java renders a null id as ".../null", and the generic `ID` type need not be `Long`; neither case is modelled.
- `AuthTools.Utf8`: a `char` here is a Unicode scalar value, so a Java string holding a lone UTF-16 surrogate, which `getBytes()` encodes as "?", cannot be represented.
- Null arguments to `String.format`, which render as "null", are not modelled in the error templates.
- Configuration (`AppConfig`), `PollingUtils`, the Gatling simulations, `PerformanceIdGenerator` and the test classes are not part of this model. The tests serve only as the source of two scenario statements.
