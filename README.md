# A verified model of the BLE device session

This project models the two stateful parts of a small bridge that lets a
client drive Bluetooth LE peripherals over a JSON-RPC 2.0 WebSocket:

- the JSON-RPC session engine of `src/session/session.js`: envelope
  classification, responses and the fallback response, the outbound id
  counter, the correlation table of pending completions, and `dispose`;
- the device session `BLESession` of `src/session/ble.js`: `getUUID`, the
  advertisement filter, and the connection state machine driven by
  `didReceiveCall`, `discover`, `connect`, `getEndpoint`, `write`, `read`,
  `startNotifications`, `stopNotifications`, `repairNotifyAfterWrite`,
  `disconnect` and `dispose`.

Files and modules:

| file | module | contents |
|---|---|---|
| `js.dfy` | `JsValue` | parsed JSON values, truthiness, property reads, `String(v)`, decimal and hexadecimal forms |
| `jsonrpc.dfy` | `JsonRpc` | messages, `makeResponse`, classification, the `Session` class |
| `uuid.dfy` | `Uuid` | `getUUID` and its normal form |
| `gatt.dfy` | `Gatt` | peripherals, services, characteristics, and the log of adapter calls |
| `discovery.dfy` | `Discovery` | the filter callback of `onAdvertisementReceived` and the `find` over filters |
| `endpoint.dfy` | `Endpoint` | `getEndpoint` as a function, the chunking of `write`, the subscription table |
| `ble.dfy` | `Ble` | the `BleSession` class: every operation of `BLESession` and one method per `case` of `didReceiveCall` |

The Bluetooth adapter (noble) is not modelled. Every call the session makes
into it is appended to `adapterLog`. Its answers are parameters, with one
exception: the list of characteristics a lookup that does not err answers
with. The model takes it to be the service's characteristics with the
requested uuid, in order (`Endpoint.Discovered`). The parameters are:

- the connect error;
- the discovered services;
- whether a characteristic lookup errs, once for the first lookup of a call
  and once for the second lookup that `case 'read'` makes when it falls
  through into `case 'startNotifications'`;
- the write error for each chunk;
- the read reply;
- the adapter's current characteristic objects.

The model takes two state changes of the adapter's peripheral as given:
`peripheral.disconnect()` marks it `disconnecting` before it returns, and
the adapter's `disconnect` event follows its becoming `disconnected`
(`Ble.BleSession.Disconnect`, `Ble.BleSession.OnPeripheralDisconnected`).

The socket's `send` is the session's `outbox`. `JSON.stringify` either
succeeds or throws, and that is the parameter `encodes`. An `async` result,
or a promise, is a `Promise`: `Resolved`, `Rejected`, or `NeverSettles`
when the callback that should settle it throws first.

The model follows the code as written, including these behaviours of it:

- `case 'read'` has no `break`. It falls through into
  `case 'startNotifications'` and answers the same call twice
  (`Ble.BleSession.CallRead`).
- `write` sends `buffer.slice(i, 20)`. Only the first chunk carries bytes,
  so a buffer longer than 20 bytes is not sent whole
  (`Endpoint.LongWriteLosesBytes`).
- The misspelt `dvertisement` throws for non-empty manufacturer data of
  equal length, once the name, prefix and services tests have passed. A
  filter compares manufacturer data successfully only when both sides are
  empty (`Discovery.ManufacturerTypoThrows`). The intended
  contents comparison is therefore not what the code does.
- `if (finded)` tests the filter `find` returns, not whether one matched.
  A falsy filter such as `0` destructures to undefined fields and matches
  any named advertisement, yet nothing is reported for it
  (`Discovery.ZeroFilterMatchesUnreported`).
- A later report of a peripheral id overwrites the earlier one in
  `reportedPeripherals`.
- A response with id `0` is rejected as missing its id, although `0` is the
  first id issued (`JsonRpc.ZeroIdResponseRejected`).
- Matched completions are never removed from the correlation table.
- Without `serviceId`, `getEndpoint` does not fall back to the first
  service, because class bodies are strict code. The assignment to the
  undeclared `serviceUuid` throws inside the promise executor, so the
  promise rejects (or, with no service at all, reading `service.uuid`
  throws first).
- After a failed lookup, the callback's rejection text names the same
  undeclared variable and throws, so the promise never settles.
- `disconnect` never clears `services`, so `discover` stays refused after
  a disconnect.
- `clearTimeout` in `discover` leaves `scanningTimeId` truthy, so later
  matches do not arm a new timeout.
- `dispose` does not cancel a scheduled scan timeout.
- An unknown method name rejects the `async` `didReceiveCall`. That
  rejection is not caught by `didReceiveMessage`, so no error response is
  sent.

## Model

| member | source | states |
|---|---|---|
| `JsValue.ParseNatRoundTrip` | src/session/session.js:94 | a property key names a natural number exactly when it is that number's decimal form |
| `JsValue.NatToString` | src/session/session.js:105 | the decimal form of a number: non-empty, digits only, no leading zero, one digit exactly below 10 |
| `JsValue.IntToHex` | src/session/ble.js:5 | `n.toString(16)` starts with `-` exactly for a negative number, and every other character is a lower-case hex digit |
| `JsValue.NatToHexValue` | src/session/ble.js:5 | the hex digits of a natural number, read back in base 16, give that number |
| `JsValue.IntToHexValue` | src/session/ble.js:5 | the hex form, read back in base 16 after its sign, gives the number's absolute value |
| `JsValue.IntToHexInjective` | src/session/ble.js:5 | different numbers have different hex forms |
| `JsonRpc.MakeResponse` | src/session/session.js:27-38 | always the given id and version 2.0; the error exactly when it is truthy, and otherwise the result, never both |
| `JsonRpc.MakeRequest` | src/session/session.js:113-125 | version 2.0, the method name and the given id; params only when truthy; no result or error |
| `JsonRpc.ResponseSent` | src/session/session.js:54-64 | the response that reaches the wire has the call's id; when encoding fails it is the error "Could not encode response" |
| `JsonRpc.ErrorResponse` | src/session/session.js:76-77 | the error response has the message's id and no result; its error is the failure when it encodes, otherwise the encoding failure text |
| `JsonRpc.Classify` | src/session/session.js:66-86 | a version other than 2.0 is an error; a truthy method is a request, dispatched only when it is a string and with params defaulted to `{}`; otherwise a truthy result or error is a response; otherwise neither |
| `JsonRpc.ResponseClassifiesBack` | src/session/session.js:66-75 | a response this engine builds classifies back as a response with the same id and payload, or as neither when result and error are both falsy |
| `JsonRpc.HandlerKey` | src/session/session.js:91-94 | only a truthy id reaches a table entry |
| `JsonRpc.IssuedIdReachesEntry` | src/session/session.js:91-94 | every issued id except 0 reaches its own entry as a number; 0 reaches none; its decimal string reaches it |
| `JsonRpc.HandlerKeyInjective` | src/session/session.js:94 | no other number reaches entry `n` |
| `JsonRpc.LookupHandler` | src/session/session.js:94-97 | a completion is found exactly when the id's key is in the table, and it is the one stored there |
| `JsonRpc.HandlerCall` | src/session/session.js:98-103 | the completion is called with `(null, error)` when the error is truthy, otherwise with `(result, null)` |
| `JsonRpc.ResponseFailure` | src/session/session.js:89-107 | a falsy id, an id with no completion, and a completion that throws each give their error text; otherwise there is no failure |
| `JsonRpc.InboundFailure` | src/session/session.js:65-87 | which failure `didReceiveMessage` answers with an error response: a version error, a non-string method and "neither" each with their text; a response with the failure `ResponseFailure` gives; a request never |
| `JsonRpc.ZeroIdResponseRejected` | src/session/session.js:91-92 | a response with id 0 is rejected as having no id and reaches no completion |
| `JsonRpc.IssuedResponseAccepted` | src/session/session.js:89-103 | a response to an issued id `n > 0` reaches the completion stored under `n` and is not an error |
| `JsonRpc.Session.constructor` | src/session/session.js:2-10 | counter 0, empty table, open socket, nothing sent |
| `JsonRpc.Session.GetNextId` | src/session/session.js:23-25 | returns the counter, then increments it by one; the id returned is in no table entry |
| `JsonRpc.Session.SendResponse` | src/session/session.js:41-64 | appends the response as sent, fallback included, and only while the session holds a socket |
| `JsonRpc.Session.DidReceiveResponse` | src/session/session.js:89-107 | the failure is `ResponseFailure`; a found completion is called once as `HandlerCall`; the table is unchanged |
| `JsonRpc.Session.DidReceiveMessage` | src/session/session.js:52-87 | dispatches exactly the valid requests, with their name and params; every other message sends the error response `InboundFailure` names, with the message's id; only responses call completions |
| `JsonRpc.Session.SendRemoteRequest` | src/session/session.js:113-132 | with a completion: takes the next id, stores the completion under exactly that id and sends that id; without one: counter and table unchanged and no id sent; after `dispose`, storing throws |
| `JsonRpc.Session.OnTransportClosed` | src/session/session.js:15 | the socket is no longer open |
| `JsonRpc.Session.Dispose` | src/session/session.js:12-21 | the first call removes the listener and closes an open socket; every call leaves no table; a second call does nothing to the socket |
| `Uuid.StripDashes` | src/session/ble.js:7 | the result has no dashes and is no longer than the input |
| `Uuid.UuidOfString` | src/session/ble.js:6-9 | a dashed 8-4-4-4-12 UUID becomes 32 lower-case hex digits; any other string is returned as it is |
| `Uuid.DashedUuidDigits` | src/session/ble.js:7 | removing the dashes of a dashed UUID leaves its five digit groups joined |
| `Uuid.GetUUID` | src/session/ble.js:4-10 | a number becomes a string; a string becomes `UuidOfString` of it; any other value is returned unchanged, except that one whose text is a dashed UUID throws, and only such a value throws |
| `Uuid.GetUUIDNumValue` | src/session/ble.js:5 | a non-negative numeric id becomes hex digits that read back in base 16 as that number |
| `Uuid.DashedUuidNormalForm` | src/session/ble.js:6-7 | a dashed 8-4-4-4-12 UUID becomes its 32 hex digits in order |
| `Uuid.GetUUIDNumInjective` | src/session/ble.js:5 | two numeric ids give the same uuid only when they are equal |
| `Uuid.GetUUIDIdempotent` | src/session/ble.js:4-10 | `getUUID` returns its own outputs unchanged |
| `Discovery.ServicesVerdictMatch` | src/session/ble.js:99-102 | the services test passes exactly when every required service, after `getUUID`, is advertised |
| `Discovery.ServicesVerdict` | src/session/ble.js:99-102 | the only exception the services test throws is the `split` TypeError of `getUUID` |
| `Discovery.FilterVerdict` | src/session/ble.js:95-112 | a null or undefined filter, and only such a filter, throws the destructuring error; every exception is one of the six the callback can raise; a match needs a non-empty advertised name |
| `Discovery.Satisfies` | src/session/ble.js:96-111 | the field-by-field reading of a match; a satisfied filter with a truthy name and prefix has a prefix of its own name |
| `Discovery.FindFirst` | src/session/ble.js:95-112 | a filter `find` answers with is in the list and matches; an exception comes from some filter's test; an empty list finds nothing |
| `Discovery.SelectFilter` | src/session/ble.js:95 | `(filters \|\| [])` finds nothing for falsy filters; a found filter is an element of the array and matches; a truthy value that is not an array throws the `find` TypeError |
| `Discovery.Reports` | src/session/ble.js:113 | reported exactly when `find` answered with a value other than `undefined`, `null`, `false`, `0` and `""` |
| `Discovery.ManufacturerVerdictMatch` | src/session/ble.js:103-110 | the manufacturer test passes exactly when one side is absent or both are empty |
| `Discovery.FilterVerdictMatch` | src/session/ble.js:95-112 | a filter matches exactly when it is satisfied field by field (`Satisfies`) |
| `Discovery.ManufacturerTypoThrows` | src/session/ble.js:96-109 | for a filter whose name, prefix and services tests pass, non-empty manufacturer data of equal length on both sides makes the test throw; a filter failing an earlier test returns before reaching it |
| `Discovery.FirstDecisive` | src/session/ble.js:95 | the index of the first filter that does not answer no-match: all before it do |
| `Discovery.FindFirstIsFirstDecisive` | src/session/ble.js:95-112 | `find` answers with the first decisive filter itself when it matches, with its exception when it throws, and with nothing when every filter answers no-match |
| `Discovery.FindFirstFirst` | src/session/ble.js:95-112 | `find` answers with a filter exactly when some filter is satisfied after only no-matches, and then with that filter; it throws exactly when the first decisive filter throws |
| `Discovery.ReportedIffFirstMatchTruthy` | src/session/ble.js:95-113 | when no filter throws, a peripheral is reported exactly when the first satisfied filter is itself truthy |
| `Discovery.ReportedIffSomeFilterMatches` | src/session/ble.js:95-113 | for a list of truthy filters none of which throws, a peripheral is reported exactly when some filter is satisfied |
| `Discovery.FalsyFilterTestsName` | src/session/ble.js:95-112 | a falsy filter such as `0`, `false` or `""` has only undefined fields, so it matches exactly when the advertised name is not empty |
| `Discovery.ZeroFilterMatchesUnreported` | src/session/ble.js:95-113 | for a named advertisement the filter list `[0]` is satisfied and `find` answers with `0`, yet nothing is reported |
| `Endpoint.FindService` | src/session/ble.js:297 | a service found is one of the services and has the uuid |
| `Endpoint.FindServiceFirst` | src/session/ble.js:297 | it is the first with the uuid, and none is found exactly when none has it |
| `Endpoint.Discovered` | src/session/ble.js:305 | the adapter answers with exactly that service's characteristics of that uuid |
| `Endpoint.Matching` | src/session/ble.js:305 | keeps exactly the characteristics with the requested uuid |
| `Endpoint.ResolveEndpoint` | src/session/ble.js:284-319 | `getEndpoint` issues at most one adapter lookup, and only a resolved endpoint changes the cache; its outcome in every case is stated by `ResolveEndpointGuards`, `ResolveEndpointNoService` and `ResolveEndpointFound`, and the cache by `ResolveEndpointCache` |
| `Endpoint.FirstWithProperty` | src/session/ble.js:310 | a characteristic found is one of them and has the property |
| `Endpoint.FirstWithPropertyFirst` | src/session/ble.js:310 | it is the first with the property, and none is found exactly when none has it |
| `Endpoint.ResolveEndpointGuards` | src/session/ble.js:286-301 | not connected rejects at once; a `characteristicId` `getUUID` cannot normalise throws; a cached key answers from the cache without a lookup; an uncached key without `serviceId` rejects without a lookup |
| `Endpoint.ResolveEndpointNoService` | src/session/ble.js:295-304 | for an uncached key: no `serviceId` rejects with the undeclared-`serviceUuid` error (or, with no service, the read of `uuid` on undefined); a `serviceId` `getUUID` cannot normalise throws; one naming no known service rejects "Could not determine service UUID"; none issues a lookup |
| `Endpoint.ResolveEndpointFound` | src/session/ble.js:295-316 | for an uncached key and a found service: exactly one lookup of that service for the characteristic; then the first discovered characteristic with the type is returned and cached, or none rejects "failed to collect", or a failed lookup never settles |
| `Endpoint.ResolveEndpointCache` | src/session/ble.js:291-313 | only a resolution changes the cache, and only under the normalised characteristic id |
| `Endpoint.ResolveEndpointLookup` | src/session/ble.js:295-316 | a lookup happens only for an uncached key with a truthy `serviceId`; it asks the service with that uuid; a resolved characteristic has the type and belongs to that service; a promise that never settles follows a failed lookup |
| `Endpoint.CachedEndpointIgnoresType` | src/session/ble.js:292-293 | once resolved, a characteristic is returned from the cache for any type, without a lookup |
| `Endpoint.Slice` | src/session/ble.js:186 | `slice` never returns more than the buffer |
| `Endpoint.ChunksAsWritten` | src/session/ble.js:185-186 | chunk `k` is `buffer.slice(20 * k, 20)`, and there are chunks exactly when the buffer is not empty |
| `Endpoint.ChunkLayout` | src/session/ble.js:185-186 | ⌈L/20⌉ chunks, chunk `k` being `buffer.slice(20k, 20)` |
| `Endpoint.ChunkIndex` | src/session/ble.js:185 | chunk `k` exists exactly when `20k` is below the length |
| `Endpoint.OnlyFirstChunkCarriesData` | src/session/ble.js:186 | every chunk after the first is empty; the bytes sent are the first 20 |
| `Endpoint.LongWriteLosesBytes` | src/session/ble.js:185-188 | a buffer longer than 20 bytes is not sent whole |
| `Endpoint.ChunkWrites` | src/session/ble.js:185-187 | one adapter write per chunk, in order |
| `Endpoint.FirstFailure` | src/session/ble.js:185-187 | every write before it succeeds and the one at it fails |
| `Endpoint.IssuedWrites` | src/session/ble.js:185-187 | the writes issued are the first chunks in order, one write each; every write but the last succeeds; stopping before the last chunk means the last write failed |
| `Endpoint.Subscribed` | src/session/ble.js:225-229 | the table gains the normalised uuid and nothing else, keeps every existing entry, holds the characteristic under a new uuid, and is unchanged when the uuid is present |
| `Endpoint.SubscribeOps` | src/session/ble.js:226-229 | one adapter subscription exactly when the uuid is new |
| `Endpoint.SubscribeAtMostOnce` | src/session/ble.js:225-242 | a second start with the same uuid subscribes nothing and keeps the table; after the stop deletes the entry, a start subscribes again |
| `Ble.ServiceUuids` | src/session/ble.js:54 | the uuids of the services in order, or `[]` without services |
| `Ble.DiscoveryParams` | src/session/ble.js:115-119 | the `didDiscoverPeripheral` params hold exactly the peripheral's id, its advertised name or undefined, and its rssi |
| `Ble.ChangeParams` | src/session/ble.js:275-280 | the `characteristicDidChange` params hold exactly the service uuid, the characteristic uuid, `base64` and the data |
| `Ble.CallOf` | src/session/ble.js:26-63 | each of the nine `case` labels selects exactly its own case, and every other name selects the `default` branch |
| `Ble.Outcome` | src/session/ble.js:25 | an awaited step's outcome decides the call's promise: resolved, the same rejection, or never settled |
| `Ble.Answer` | src/session/session.js:41-45 | one completion sends one message with the call's id, and none after `dispose` |
| `Ble.TransferListeners` | src/session/ble.js:261 | the new object has a data listener exactly when the old one had; no other object changes |
| `Endpoint.Repaired` | src/session/ble.js:259-263 | an entry changes exactly when its current object is a different object, and then becomes that object |
| `Endpoint.RepairFails` | src/session/ble.js:259 | the repair pass throws only for a non-empty table; when it does not, every entry has a current object |
| `Ble.RepairedIn` | src/session/ble.js:255-265 | the table keeps its keys; repaired entries hold the repaired object and the others are unchanged |
| `Ble.BleSession.constructor` | src/session/ble.js:13-23 | no peripheral or services, empty tables, no timer or listener |
| `Ble.BleSession.Discover` | src/session/ble.js:67-90 | throws exactly when services are known, changing nothing; otherwise cancels the timer, empties `reportedPeripherals`, starts scanning with duplicates and registers a listener with the filters, keeping the older ones |
| `Ble.BleSession.OnAdvertisementReceived` | src/session/ble.js:92-131 | when `find` answers with a truthy filter, records the peripheral under its id, overwriting, sends one `didDiscoverPeripheral` with id, name and rssi, and arms the timer only when `scanningTimeId` is unset; a throwing filter, or such an answer after `dispose`, throws and changes nothing; otherwise, a falsy matching filter included, nothing changes |
| `Ble.BleSession.OnScanTimeout` | src/session/ble.js:121-127 | stops scanning, removes the current listener, and clears the timer |
| `Ble.BleSession.Connect` | src/session/ble.js:133-169 | rejects, changing nothing, when connected or when the id was never reported; otherwise stops a running scan, connects and listens for the disconnect; on success adopts the peripheral as connected and its services; on either callback error rejects without adopting them |
| `Ble.BleSession.ConnectReported` | src/session/ble.js:143-161 | the steps of `connect` after the lookup, with the same outcomes |
| `Ble.BleSession.Disconnect` | src/session/ble.js:321-325 | asks the adapter to disconnect only a connected peripheral, which is then `disconnecting`; nothing else changes |
| `Ble.BleSession.OnPeripheralDisconnected` | src/session/ble.js:162-164 | the reported peripheral becomes disconnected, then `disconnect` runs on whichever peripheral is current |
| `Ble.BleSession.GetEndpoint` | src/session/ble.js:284-319 | the outcome, the lookup issued and the new cache are those of `ResolveEndpoint`, so the guards, the no-service rejections and the found case (the first characteristic with the type, cached, or "failed to collect") hold of the session |
| `Ble.BleSession.Write` | src/session/ble.js:180-192 | never rejects; a decode or endpoint error is returned as an Error value; on a resolved endpoint it issues the chunk writes up to the first failure and returns that error or the length |
| `Ble.BleSession.WriteChunks` | src/session/ble.js:185-187 | the writes issued are every chunk up to and including the first failing one, and the failure is that chunk's error |
| `Ble.BleSession.Subscribe` | src/session/ble.js:225-234 | the table becomes `Subscribed`, the adapter subscription is `SubscribeOps`, and the object carries a data listener |
| `Ble.BleSession.StartNotifications` | src/session/ble.js:220-235 | uses a given characteristic that can notify without a lookup; otherwise resolves a `notify` endpoint and subscribes it, and a failed resolution is the rejection with nothing subscribed |
| `Ble.BleSession.Read` | src/session/ble.js:205-218 | never rejects; as `ReadCase` says, endpoint and read errors are returned as Error values after the lookup, and a successful read returns the data and subscribes as well when `startNotifications` is truthy |
| `Ble.BleSession.ReadResolved` | src/session/ble.js:208-213 | the steps of `read` after the endpoint resolved, with the same outcomes |
| `Ble.BleSession.StopNotifications` | src/session/ble.js:237-243 | resolves a `notify` endpoint, unsubscribes it, drops its data listener, and deletes its uuid's entry; a failed resolution rejects and changes no subscription |
| `Ble.BleSession.RepairNotifyAfterWrite` | src/session/ble.js:255-265 | `RepairOutcome`: keeps the key set; an entry either stays or becomes the adapter's current object, and every entry does when no entry is missing; it throws exactly when some entry has no current object; only listener targets change; when no entry is missing and no two moved entries share a target or land on an object another leaves, every moved entry's new object has a data listener exactly when its old object had one |
| `Ble.ListenersTransferredStep` | src/session/ble.js:256-263 | repairing one more entry keeps every pending entry's own listener and every repaired entry's transferred listener, when no transfer can overwrite another |
| `Ble.RepairProgressDone` | src/session/ble.js:256-265 | once no entry is pending, every entry is repaired, no entry was missing, and under the same condition every moved entry's listener was transferred |
| `Ble.BleSession.RepairNext` | src/session/ble.js:256-263 | one pass of the loop: a missing current object changes nothing; otherwise the entry is repaired and the pass's invariant holds with it no longer pending |
| `Ble.BleSession.RepairEntry` | src/session/ble.js:257-263 | one entry: missing when there is no current object; otherwise replaced, taking over its listener, only when it is a different object |
| `Ble.BleSession.OnValueChanged` | src/session/ble.js:274-282 | sends one `characteristicDidChange` request with the service, characteristic, encoding and data |
| `Ble.BleSession.StopAllNotifications` | src/session/ble.js:267-270 | an empty table issues nothing; otherwise one entry is asked to stop notifying |
| `Ble.BleSession.Dispose` | src/session/ble.js:327-342 | disconnects, disposes the session (the first time, removing the message listener and closing an open socket; afterwards leaving the socket alone), stops one notification, clears every table and removes the current discover listener; the timer stays as it was |
| `Ble.BleSession.ClearTables` | src/session/ble.js:332-341 | the fields `dispose` nulls are empty, and the current discover listener is removed |
| `Ble.BleSession.CallDiscover` | src/session/ble.js:27-30 | a refused `discover` rejects with no answer and changes nothing; otherwise one answer with the call's id, after the scan and listener changes of `Discover` |
| `Ble.BleSession.CallConnect` | src/session/ble.js:31-34 | answers once exactly when the call connected a peripheral that was not connected, then holding the discovered services; the refusals change nothing; otherwise the scan, timer, adapter calls, disconnect listener and adopted peripheral of `Connect` |
| `Ble.BleSession.CallDisconnect` | src/session/ble.js:35-38 | disconnects (a connected peripheral is then `disconnecting`) and answers once |
| `Ble.BleSession.CallWrite` | src/session/ble.js:39-42 | answers once, unless the write never settles; rejects exactly when the repair finds a missing object; the cache and adapter calls of `Write` (the lookup, then the chunk writes up to the first failure); the table and listeners as `RepairOutcome` says |
| `Ble.BleSession.AnswerThenRepair` | src/session/ble.js:40-41 | answers with the write's result, then repairs as `RepairOutcome` says; a failed repair rejects |
| `Ble.BleSession.CallRead` | src/session/ble.js:43-48 | every answer carries the call's id; a resolved call answers twice, a rejected one once; a read that never settles sends nothing; the new state is `ReadCallCase`: a resolved read endpoint ends read and subscribed at most once through the cache, a rejected one is followed by a fresh `notify` lookup |
| `Ble.BleSession.AnswerRead` | src/session/ble.js:44-48 | a read that never settles sends nothing and changes nothing; otherwise the fall-through's state is `StartCase` |
| `Ble.BleSession.AnswerThenStart` | src/session/ble.js:44-47 | answers with the read result, then a second time with null when `startNotifications` resolves; the fall-through settles as a `notify` endpoint lookup with its own adapter answer does, so a successful read followed by a failed second lookup answers once and never settles; the new state is `StartCase` |
| `Ble.CachedFallThrough` | src/session/ble.js:43-47 | once `read` resolved its endpoint, the fall-through's `getEndpoint` returns the same characteristic from the cache, with no lookup |
| `Ble.ReadThenStart` | src/session/ble.js:43-48 | `read` followed by the fall-through gives `ReadCallCase`, and the call never settles exactly when the read endpoint never settles |
| `Ble.BleSession.CallStartNotifications` | src/session/ble.js:45-48 | resolves, answering once, exactly when a `notify` endpoint resolves; the table then holds it; cache, listeners and adapter calls as `StartCase` says |
| `Ble.BleSession.CallStopNotifications` | src/session/ble.js:49-52 | resolves, answering once, exactly when a `notify` endpoint resolves; its uuid's entry, its data listener and its subscription are then gone; otherwise only the lookup happens |
| `Ble.BleSession.CallGetServices` | src/session/ble.js:53-55 | answers with the service uuids, or `[]` |
| `Ble.BleSession.CallPingMe` | src/session/ble.js:56-61 | answers `willPing`, then sends a `ping` request under the next id with its completion stored; after `dispose` storing it throws |
| `Ble.BleSession.DidReceiveCall` | src/session/ble.js:25-65 | only extends the outbox; answers carry the call's id except for `pingMe`'s request; a resolved `read` answers twice; an unknown name rejects and sends nothing; `discover` is refused exactly when services are known; `connect` resolves exactly when it connects; `disconnect` answers `null` and `getServices` the service uuids; `write` rejects exactly when the repair fails; `pingMe` takes one outbound id |
| `Ble.BleSession.DidReceiveEndpointCall` | src/session/ble.js:39-52 | the endpoint cases answer only with the call's id; a resolved `read` answers twice and a rejected one once; `write` rejects exactly when the repair fails; `startNotifications` and `stopNotifications` settle as their endpoint lookup does |
| `Ble.BleSession.DidReceiveOtherCall` | src/session/ble.js:27-61 | the other cases only extend the outbox, and every case but `pingMe` answers only with the call's id; `discover` is refused exactly when services are known; `connect` resolves exactly when it connects; `disconnect` answers `null`; `getServices` answers the service uuids; `pingMe` takes one outbound id |
| `Ble.BleSession.OnMessage` | src/session/session.js:40-46 | nothing after `dispose`; a call handler runs exactly for a valid request; any other message sends the error response of `InboundFailure` |

## Left out

- JSON text: `JSON.parse` and `JSON.stringify` are not modelled. A message is its parsed record, and whether a response encodes is the parameter `encodes`.
- `src/index.js`, the HTTP and WebSocket bootstrap: it is server plumbing and is not part of this model.
- `Buffer` decoding of `message` with its `encoding`, and the base64 encoding of read data: the decoded bytes and the read text are parameters.
- `setTimeout` and `clearTimeout`: there is no clock. A scheduled scan timeout is the flag `timerArmed`, and its firing is the method `OnScanTimeout`.
- The noble adapter: its internals, its event emitter and `noble._characteristics` are outside the model. Its answers are parameters, and the calls made into it are the log `adapterLog`.
- Promise interleavings: each inbound message runs to completion before the next. The interleaving of `stopAllNotifications` with `dispose` is reduced to its first step.
- `console.log` and `console.warn` output is not modelled.
- `onBinary` and the base `didReceiveCall` do nothing and are not modelled.
- Property names that `Object.prototype` supplies are not modelled. For example, a `peripheralId` of "constructor" is modelled as unreported.
- Unhandled promise rejections are not modelled beyond the call's promise being `Rejected`.
- Ble.BleSession.RepairNotifyAfterWrite: leaves the `for…in` order open. On a throw it says only that each entry is either unchanged or repaired, not which ones. The transfer of data listeners is stated only when no entry is missing and no transfer can overwrite another; otherwise the result depends on the order.
- Ble.BleSession.StopAllNotifications: leaves open which entry is stopped first.
- Ble.BleSession.Connect: models the disconnect listeners as a set of peripheral ids, so the listener that each `connect` adds again is not counted.
- Ble.BleSession.Connect: a connect callback that never runs, which would leave the promise unsettled, is not modelled. Both callbacks are taken to answer.
- JsonRpc.Session.SendResponse: one `encodes` value applies to the response and to its fallback. A fallback that fails to send as well is not modelled.
- Ble.BleSession.CallWrite: states the number of answers and their id, and the whole new state, but not the answer's contents. `Ble.BleSession.AnswerThenRepair` and `Ble.BleSession.Write` state the contents.
- Ble.BleSession.CallRead: states the number of answers and their id, and the whole new state (`Ble.ReadCallCase`), but not the answers' contents. `Ble.BleSession.AnswerThenStart` and `Ble.BleSession.Read` state the contents.
- Ble.BleSession.DidReceiveCall: states the outcome of each case except `read`, `startNotifications` and `stopNotifications`, and the contents of the answers only for `disconnect` and `getServices`. `Ble.BleSession.DidReceiveEndpointCall` and the contract of each `Call…` method state the rest.
- Ble.BleSession.DidReceiveEndpointCall: leaves the contents of the answers and the new cache, subscription table, listeners and adapter log to `Ble.BleSession.CallWrite`, `Ble.BleSession.CallRead`, `Ble.BleSession.CallStartNotifications` and `Ble.BleSession.CallStopNotifications`.
- Ble.BleSession.DidReceiveOtherCall: leaves the new connection, scan and listener state to `Ble.BleSession.CallDiscover`, `Ble.BleSession.CallConnect`, `Ble.BleSession.CallDisconnect` and `Ble.BleSession.CallPingMe`, each of which states it.
- Ble.BleSession.Disconnect: that `peripheral.disconnect()` marks the peripheral `disconnecting` before it returns is behaviour of the adapter, which is not part of this model; the model takes it as given, and a failed disconnect that leaves the peripheral connected is not modelled.
- Ble.BleSession.CallPingMe: the `ping` completion only logs, so its effect when called is not modelled.
- Endpoint.Discovered: the characteristics a lookup that does not err answers with are assumed to be the connected service's own with that uuid, in order; they are not a parameter. The clause of `Endpoint.ResolveEndpointLookup` that a resolved characteristic belongs to that service rests on this assumption, and so does the list `Endpoint.ResolveEndpointFound` searches.
- Characteristic identity: two objects for the same characteristic are told apart by an opaque handle. Object sharing between entries of the two tables is not modelled.
- Numbers in JSON values are integers. Fractions, `NaN` and the exponent forms of `String(n)` are not modelled.
