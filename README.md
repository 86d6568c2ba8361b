# Telemetry relay: collector store, ingestion loop and capture middleware in Dafny

This project models the core of a small telemetry relay. Instrumented HTTP
services time each request and send one metric record per request over a
websocket to a collector. The collector keeps the most recent records in a
bounded in-memory store and exposes them over HTTP.

The modelled pieces, one module each:

- `Store` (store.dfy): the collector's metric record and its bounded FIFO store, `maxMetrics = 1000`. An insertion into a full store drops the oldest record, then appends the new one. `MetricStore` is a class whose `items` field plays the role of the global slice.
- `Ingestion` (ingestion.dfy): the per-connection receive loop. Each turn observes one `Event`: the context is cancelled, the read fails, the frame does not decode, or the frame decodes to a metric whose acknowledgment is or is not encoded and written. `Run` is the loop as a function. `HandleWebSocket` is the loop as a method over the store, proved equal to `Run`. `RunSpec` restates `Run` without recursion: store every decoded metric, acknowledge each whose ack was encoded and written, and stop at the first event that ends the loop.
- `Queries` (queries.dfy): the `OPTIONS` pre-filter and the `/health`, `/metrics` and `/stream` routes.
- `Settings` (settings.dfy): the producer configuration and its defaults.
- `Outbound` (outbound.dfy): the producer's client. It holds an optional connection, sends best-effort, and redials once after a failed write. `Send` is one `SendMetric` as a function. `SendAll` is a run of sends. The class `Client` carries the connection and a ghost trace `Calls` of the dials, writes and releases it makes.
- `Tracker` (tracker.dfy): the capture middleware. A handler is represented by the status codes it passes to `WriteHeader` and by whether it panics afterwards. The server's own response writer is the class `StatusSink`: it keeps the codes it is handed and panics on an invalid one. Elapsed time, the completion instant and the network outcomes are parameters.

Two behaviours of the code are worth noting:

- `Client.Close` releases the connection but never clears the field. Calling it again releases the same connection again, and a later send still writes on it.
- In middlware/tracker.go the metric's timestamp is `time.Now()`, while middlware/client.go declares that field as `int64`. The model passes the completion instant as the declared integer. The collector keeps the timestamp as text, as main.go declares it. No encoding round trip between the two record types is modelled.

## Model

| member | source | states |
|---|---|---|
| `Store.Appended` | main.go:130-134 | inserting into a store within capacity keeps it within capacity, puts the new record last, and yields exactly the newest `capacity` records of old contents plus the new one |
| `Store.AppendAllKeepsNewest` | main.go:130-134 | any sequence of insertions into a store within capacity leaves the newest `capacity` records of old contents followed by the inserted ones, in insertion order |
| `Store.FromEmptyKeepsLast` | main.go:130-134 | from an empty store, inserting `ms` leaves exactly the last min(\|ms\|, capacity) elements of `ms` in order, never more than capacity |
| `Store.ThreeSlotScenario` | main.go:130-134 | with capacity 3, inserting A, B, C, D, E in order leaves [C, D, E] |
| `Store.MetricStore.constructor` | main.go:30-34 | a new store is empty and has the given capacity of at least 1 |
| `Store.MetricStore.Collector` | main.go:30-34 | the collector's store starts empty with capacity `maxMetrics` = 1000 |
| `Store.MetricStore.Append` | main.go:130-135 | below capacity the store becomes old + [m] with nothing removed; at capacity it becomes old[1..] + [m], so exactly the oldest record is evicted; the length bound is kept |
| `Store.MetricStore.Count` | main.go:55-57 | returns the store's current length and changes nothing |
| `Store.MetricStore.Snapshot` | main.go:71-77 | returns the stored records in insertion order with their count and changes nothing |
| `Ingestion.Run` | main.go:113-157 | the receive loop as a function: acks are only ever added, the store never exceeds its capacity whatever arrives, and it never reports an upgrade failure; characterised by `RunSpec` and `RunEnds` |
| `Ingestion.Connection` | main.go:103-108 | a failed upgrade, and only that, ends the connection as `UpgradeFailed`, with the store untouched and no ack sent; otherwise the connection is the loop, within capacity |
| `Ingestion.FirstEnd` | main.go:113-157 | finds the first event on which the loop returns (cancellation, read error, failed ack write) and shows that no earlier event is one |
| `Ingestion.RunSpec` | main.go:113-157 | the loop stores every decoded metric among the events it takes up, in order, and writes one `{received, route}` ack per metric whose ack was encoded and written. It stops at the first ending event with that event's reason, or stays open |
| `Ingestion.RunKeepsNewest` | main.go:124-135 | after a connection, the store is the newest `capacity` records of its old contents followed by the decoded metrics |
| `Ingestion.RunEnds` | main.go:113-157 | the loop stays open iff no event is a cancellation, a read error or a failed ack write; otherwise it ends with the reason of the first such event |
| `Ingestion.EveryStoredMetricAcknowledged` | main.go:130-157 | when every ack encodes and is written, each decoded metric gets exactly one ack echoing its route, in the order stored |
| `Ingestion.MalformedFrameIgnored` | main.go:124-128 | a frame that does not decode leaves the store, the acks and the loop's continuation exactly as if it had not arrived |
| `Ingestion.HandleWebSocket` | main.go:103-160 | a failed upgrade touches nothing; otherwise the method leaves the store, the acks sent and the end reason equal to the loop function's |
| `Queries.Preflight` | main.go:47-51 | a request is aborted iff its method is `OPTIONS`, and then with status 204 |
| `Queries.Serve` | main.go:42-78 | `OPTIONS` on any path gets 204 before any handler runs. `GET /health` reports healthy with the store's length. `GET /metrics` reports the length and the records in insertion order. `GET /stream` goes to the websocket loop |
| `Queries.HandleHttp` | main.go:54-78 | the handlers, reading through the store's `Count` and `Snapshot`, answer as `Serve` does and leave the store unchanged |
| `Settings.DefaultConfig` | middlware/config.go:10-15 | capture is enabled, the server URL is `ws://localhost:8080/stream`, and the project identifier and API key are empty |
| `Outbound.Stamped` | middlware/client.go:45 | the sent record carries the configured project identifier whatever it carried before; every other field is unchanged |
| `Outbound.Send` | middlware/client.go:40-59 | disconnected: no call and no change. Encoding fails: no call and no change. Write succeeds: one write of the stamped record, connection kept. Write fails: that write, then exactly one dial, whose result becomes the connection; no resend |
| `Outbound.DisconnectedStaysSilent` | middlware/client.go:41-43 | once the connection is absent, any number of sends makes no call and the client stays disconnected |
| `Outbound.AtMostOnce` | middlware/client.go:45-58 | over any run of sends, the written frames are a sub-multiset of the records handed over, stamped: no record is written twice and none that was not handed over. Every frame carries the configured project. Every dial is to the configured URL and comes straight after a write, so there are no more dials than writes |
| `Outbound.Client.constructor` | middlware/client.go:24-28 | a new client has made exactly one dial, and its connection is that dial's result |
| `Outbound.Client.Connect` | middlware/client.go:30-38 | one dial to the configured URL; the connection becomes the dial's result, absent on failure |
| `Outbound.Client.SendMetric` | middlware/client.go:40-59 | the connection and the calls made agree with `Send` |
| `Outbound.Client.Close` | middlware/client.go:61-65 | releases the connection if there is one and leaves the field as it was |
| `Tracker.LastWriteWins` | middlware/tracker.go:13-16 | after a series of header writes the captured status is the last code written, or the starting status if there was none |
| `Tracker.CapturedStatus` | middlware/tracker.go:32-38 | the status recorded for a request is 200 if the handler wrote no header, else the last code it wrote |
| `Tracker.CaptureMetric` | middlware/tracker.go:45-51 | the record has the request path as route, the request method, the captured status, the elapsed milliseconds and the completion instant; the project identifier is left empty |
| `Tracker.ResponseWriter.constructor` | middlware/tracker.go:32-35 | the wrapper starts with status 200 and wraps the given server writer |
| `Tracker.ResponseWriter.WriteHeader` | middlware/tracker.go:13-16 | the wrapper's status becomes the code before the code is forwarded to the wrapped writer, and the wrapper panics exactly when that writer refuses the code |
| `Tracker.DeliverSpec` | middlware/tracker.go:15 | a handler's codes reach the server's writer in order. Either none is refused and all are handed on, or handing stops right after the first refused code (outside 100-999, with no final status before it) |
| `Tracker.InvalidStatusRefused` | middlware/tracker.go:15 | code 42 panics when it comes first or after only a 1xx code, and is ignored after a final 200 |
| `Tracker.HealthTracker` | middlware/tracker.go:18-27 | disabled gives the identity middleware and makes no outbound call at all. Enabled makes exactly one call, a dial to the configured URL, and gives a fresh client with the config whose trace is that dial |
| `Tracker.ServeRequest` | middlware/tracker.go:27-54 | the server's writer receives the handler's codes in order, up to the first it refuses. A panic, from a refused code or from the handler itself, ends the request with no record and no outbound call. Under the identity no outbound call is made. When capturing and the handler returns, exactly one record is built from the captured status and handed to the client, and the calls made are exactly those `Send` gives |

## Left out

- Concurrency: the read/write lock around the store and the goroutine per send. Each store operation is one atomic step. The send runs right after the handler returns, not in the background.
- JSON encoding and decoding. Decoding a frame, encoding an ack and encoding a record are outcomes given in `Event` and `SendOutcomes`. Wire shapes and round trips are not modelled.
- The websocket upgrade, dial, read, write and close. These are outcomes given from outside. The client's `Calls` trace records which of them were invoked.
- Routing, server startup and shutdown, and process lifecycle in `main`. `Serve` covers only the three registered routes. Everything else is `NotRouted`, which the framework answers.
- The CORS response headers, which are set on every response. Only the `OPTIONS` short-circuit is modelled.
- Logging.
- The wall clock: `time.Now` and `time.Since`. The elapsed milliseconds and the completion instant are parameters.
- Integer widths. Status codes, response times and timestamps are unbounded integers. No 64-bit overflow is modelled.
- Ingestion.HandleWebSocket: the source's loop never ends by itself. The model runs over a finite sequence of events, and `Open` means the loop is still waiting for the next frame.
- Store.MetricStore.constructor: capacity is a parameter of at least 1, so the fixed 1000 (`MaxMetrics`) and small cases such as 3 are both covered. A capacity of 0 is excluded: the source would then evaluate `metrics[1:]` on an empty slice, which panics with a slice-bounds-out-of-range error.
- Outbound.Client.constructor: the client keeps its configuration by value. Later changes made through the shared `*Config` reference are not seen.
- Tracker.ServeRequest: the wrapper passes every code on, but net/http sends the caller only the first final status written (1xx informational codes other than 101 go out ahead of it and do not fix it), or an implicit 200 when the handler writes body bytes first, and ignores later codes. The model records the codes handed to the wrapped writer, not the status the caller receives, so the recorded last code can differ from it: a handler that writes 404 then 500 answers 404 but is recorded as 500.
- net/http's response writer is represented by `Tracker.StatusSink`, which models only the status rule: a code outside 100-999 panics until a final status has gone out, and later codes are ignored. Hijacked connections and body writes are not modelled.
- Tracker.ServeRequest: after a panic the model stops. The server recovers the panic for that connection, and this is not modelled; the point kept is that no record is built and nothing is sent.
- Tracker.ServeRequest: a handler is represented only by its `WriteHeader` calls and whether it panics after them. Body writes and headers pass through the wrapper untouched and are not modelled.
