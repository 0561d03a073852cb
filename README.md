# Hikvision alarm server: the alarm debounce state machine

The adapter receives alarm notifications that an IP camera POSTs as XML. Each
notification names a device (`macAddress`) and an event type (`eventType`).
The adapter turns them into boolean indicator states in an external state store,
one state per `macAddress + "." + eventType`. Every event writes the state true
and (re)starts a 5000 ms clear timer. The timer writes false when it runs. On
shutdown, every pending timer is cancelled and every known state is written
false.

The model has four modules:

- `Wrappers`: the `Option` type.
- `Debounce`: the state machine as values.
  - `State` holds the adapter's timer table and the host's queue of scheduled
    timeouts (keyed by handle, never reusing a handle).
  - It also holds the external store (object set and values) and a logical
    millisecond clock.
  - The step functions are `LogEvent`, `TimerFired`, `Unload` and `Advance`.
  - `Run` applies any trace of events, ticks, timeout attempts and shutdowns.
  - The invariant `Valid` says every scheduled timeout is the one the table
    records for its id. So no id has two pending timers, and for every id in
    the timer table the indicator is true exactly while its timer is pending.
- `HttpGate`: the request gate. It decides which request reaches `logEvent` and
  with what text.
- `AlarmServer.Adapter`: the adapter object. Its fields are updated in place the
  way `main.js` does it. `LogEvent`, `FireDue`, `Tick`, `Unload` and
  `HandleRequest` keep `Valid` and end in exactly the corresponding `Debounce`
  step. The helpers `Raise`, `DrainAll` and `DrainEntry` are proved equal to
  their `Debounce` step only. `DrainAll` is the shutdown loop over the table's
  keys, and `DrainEntry` is its body.

The clock, the host's timer scheduling and the store are state inside the
model: `Tick` advances the clock and `FireDue` is the host running one
timeout. Logging is left out.

Behaviour of the code worth knowing:

- The state id is the device id verbatim, a dot and the event type, for
  example `AA:BB:CC:DD:EE:FF.VMD`.
- The clear delay is the constant 5000 ms.
- Every response is ended with the default status 200, also for a non-POST
  request and for a body that does not parse. The response is ended before
  the body is read.
- An alert with an absent `macAddress` or `eventType` is still logged. In a
  string concatenation the absent field reads `"undefined"`, so the state
  `undefined.VMD` is raised (`HttpGate.MissingFieldsAreNotRejected`). A document
  without the `EventNotificationAlert` element makes `logEvent` throw on
  its first field access, before it changes anything.
- Every event calls create-if-missing and writes true again, also when a timer
  was pending. After its timer fires, an id keeps a null entry in the table, so
  shutdown writes false to it once more.
- A new adapter starts with an empty timer table but keeps the store of earlier
  runs. An indicator left true by an earlier run is not in the table, so it has
  no clear timer and stays true until its next event.

## Model

| member | source | states |
|---|---|---|
| `Debounce.StateIdRoundTrip` | main.js:88-90 | for a device id without dots, splitting the state id at its first dot gives back exactly the device id and the event type; nothing is normalised |
| `Debounce.StateIdInjective` | main.js:88-90 | two events with dot-free device ids share a state id only if device id and event type are both equal |
| `Debounce.StateIdCollision` | main.js:87-90 | because the device id is used verbatim, a dotted device id (`a.b` + `VMD`) collides with another pair (`a` + `b.VMD`) |
| `Debounce.FirstDotOfStateId` | main.js:90 | in a state id built from a dot-free device id, the first dot is at the device id's length |
| `Debounce.AtMostOnePending` | main.js:92-118 | in every valid state an id has at most one scheduled clear timeout, and it has one exactly when its table entry holds that handle |
| `Debounce.Cancel` | main.js:92-96 | a pending timer for the id is removed from the host queue and its entry nulled; an absent or null entry leaves everything as it was; nothing else changes |
| `Debounce.Raise` | main.js:92-118 | for a state id: adds the id's object (other objects kept), writes true to the id only, points the id's entry at a fresh handle due `now + 5000`, removes the id's old handle and keeps every other queued timeout |
| `Debounce.LogEventSpec` | main.js:86-119 | from a valid state an event (id built as `macAddress + "." + eventType`) keeps `Valid`, leaves exactly one pending timer for the id, due 5000 after this event (so bursts push the deadline forward), and the previous timer is no longer scheduled |
| `Debounce.RepeatedEventKeepsObjects` | main.js:98-112 | once the id's object exists, a repeated event leaves the object set unchanged and still writes true |
| `Debounce.TimerFired` | main.js:115-118 | the clear callback writes false to its own id and nulls its entry; the timeout leaves the queue; objects and clock unchanged |
| `Debounce.TimerFiredSpec` | main.js:115-118 | a firing timer keeps `Valid`, leaves its id false with no pending timer, and does not change whether any other id has a pending timer |
| `Debounce.ClearedExactlyAtDeadline` | main.js:115-118 | with no further event, the new clear timer becomes due exactly when at least 5000 ms have passed since the event |
| `Debounce.Drain` | main.js:72-78 | the partial shutdown drain keeps the table's key set, the objects, the handle counter and the clock |
| `Debounce.DrainStep` | main.js:72-78 | handling one more id extends a partial drain by exactly one iteration of the shutdown loop body, in any order |
| `Debounce.UnloadSpec` | main.js:71-78 | shutdown keeps `Valid`, leaves no scheduled timeout, nulls every entry and writes false to every id in the table (also those whose timer already fired); other states and all objects unchanged |
| `Debounce.RunKeepsTableKeys` | main.js:72-118 | no trace removes an id from the timer table (the callback and the drain only null entries), so a later shutdown writes false to every id that ever had an event |
| `Debounce.Advance` | main.js:118 | the clock moves forward by the given milliseconds and every other part of the state is unchanged |
| `Debounce.RunValid` | main.js:86-119 | the invariant holds after any trace of events, clock ticks, timeout attempts and shutdowns |
| `Debounce.GoneStaysGone` | main.js:92-96 | a timeout that was cancelled or has run never becomes scheduled again, whatever follows |
| `Debounce.StaleTimerNeverFires` | main.js:92-96 | after a newer event for an id, the id's older timer can never run later, so it cannot overwrite the fresh true with false |
| `Debounce.StepStaysRaised` | main.js:92-118 | one step that neither shuts down nor lets the clock reach the deadline keeps the indicator raised; the time left is reset to 5000 by an event for the id and reduced by a tick |
| `Debounce.StaysRaised` | main.js:92-118 | while events for an id keep arriving less than 5000 ms apart and there is no shutdown, the indicator stays true with its one timer ahead of the clock, whatever other ids and timeouts do |
| `Debounce.KeepsAlivePrefix` | main.js:92-118 | every prefix of a trace that keeps an indicator alive keeps it alive too |
| `Debounce.StaysRaisedThroughout` | main.js:92-118 | in such a trace the indicator is true in every intermediate state: no false write happens in between |
| `HttpGate.Route` | main.js:37-54 | a request yields an event exactly when it is a POST, its body parses and the alert element is present; the event carries the alert's device id and event type as text |
| `HttpGate.MissingFieldsAreNotRejected` | main.js:86-90 | a POST whose alert lacks `macAddress` (or both fields) is still logged, under the text `undefined` |
| `AlarmServer.Adapter.constructor` | main.js:27 | a new adapter starts with an empty timer table and no scheduled timeouts; the store keeps its earlier content |
| `AlarmServer.Adapter.LogEvent` | main.js:86-119 | builds the id by concatenation and raises it, ending in exactly `Debounce.LogEvent` of the old state with one pending timer for the id, and keeps `Valid` |
| `AlarmServer.Adapter.Raise` | main.js:92-118 | cancels and nulls a pending entry, creates the object, writes true and stores a fresh timeout handle in place, ending in exactly `Debounce.Raise` of the old state |
| `AlarmServer.Adapter.FireDue` | main.js:115-118 | the host runs the callback of a scheduled, due timeout and reports whether it did; the result is the `Timeout` step of the old state |
| `AlarmServer.Adapter.Tick` | main.js:118 | the clock advances by the given milliseconds and nothing else changes |
| `AlarmServer.Adapter.Unload` | main.js:65-84 | shutdown ends in exactly `Debounce.Unload` of the old state, with an empty timeout queue, and keeps `Valid` |
| `AlarmServer.Adapter.DrainAll` | main.js:72-78 | the loop over the table's keys, taken in any order, ends in exactly `Debounce.Unload` of the old state |
| `AlarmServer.Adapter.DrainEntry` | main.js:73-77 | the loop body for one id cancels and nulls a pending entry and writes false, exactly one `Debounce.DrainOne` step |
| `AlarmServer.Adapter.HandleRequest` | main.js:36-55 | the response always ends with status 200; only a POST with a parsed alert changes state, and then exactly as `logEvent` does; anything else changes nothing |

## Left out

- The HTTP server itself: `createServer`, body streaming, `listen` and the `server.close()` call in `onUnload`. These are network I/O. `HandleRequest` receives the method and the parse outcome directly.
- XML parsing by the xml2js library. Its result is modelled as a parse error or a document that may lack the alert element and either field. The parser wraps values in arrays, and a repeated element would read as comma-joined text. An element carrying attributes would read as an object. Neither is modelled: a field is read as plain text.
- The ioBroker adapter base class, all logging, the `require.main` bootstrap and the `unload` callback. This is host framework plumbing.
- Store writes by anyone but the adapter. The state objects are declared writable, so a user could change a value. The invariant "for every id in the timer table, true exactly while a clear timer is pending" assumes no such write.
- The `ack` flag of the store writes (always true) and the object descriptor (name, type, role).
- Interleavings across the `await`s in `logEvent`, and the unawaited `async` `forEach` in `onUnload`. Each event, timer run and shutdown is one atomic step. In the real event loop, two events for the same id that overlap across those awaits can each schedule a timer. The source then has two pending timers for one id, which the atomic model cannot show.
- `onUnload` calls its completion callback as soon as the `forEach` returns, while the `setStateAsync(id, false, true)` promises are still unsettled, so the host may stop before the false writes reach the store. `UnloadSpec` treats those writes as done.
- A rejected store call is not modelled. If `setObjectNotExistsAsync` or `setStateAsync` fails inside `logEvent`, the old timer has already been cancelled and nulled. The id is then left with no clear timer, and its value may stay true; the model has every store call succeed.
- The `TypeError` on a document without the alert element is raised inside the async `logEvent`. It becomes a promise rejection that the request handler neither awaits nor catches. How the host reacts to it is not modelled: the model only records that no state changes.
- Wall-clock timer semantics. The model uses an integer clock and due times. The model lets the host run a due timeout late, and in any order among due ones.
- Node's timeout objects. A handle is a natural number that is never reused.
- The order of `Object.keys` in the shutdown loop. The loop picks keys in an arbitrary order, and `DrainStep` shows that the final state does not depend on it.
- admin/words.js is not part of this model: it is a static dictionary of admin UI translations with no logic.
- Multipart bodies, image annotation, throttled relays, connection tracking, device name resolution, stripping separators from the MAC, channel-qualified ids and a configurable timeout. The code has none of these.
