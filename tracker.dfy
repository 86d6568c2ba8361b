/**
 * The producer-side capture middleware (middlware/tracker.go). A handler is
 * modelled by the status codes it passes to WriteHeader, in order; the clock
 * readings and the send's network outcomes are parameters.
 */
module Tracker {

  import opened Wrappers
  import opened Settings
  import opened Outbound

  /**
   * A request as the producer's own server receives it. It is kept apart from
   * the collector's `Queries.Request`: the two sides are separate programs that
   * share no types, only the wire format.
   */
  datatype Request = Request(httpMethod: string, path: string)

  /** The status a writer holds after starting at `status` and receiving `codes`: each call overwrites the last. */
  function Overwrite(status: int, codes: seq<int>): int
    decreases |codes|
  {
    if codes == [] then status else Overwrite(codes[0], codes[1..])
  }

  /** The last code written wins; with no call the starting status stays. */
  lemma {:induction false} LastWriteWins(status: int, codes: seq<int>)
    ensures Overwrite(status, codes) == if codes == [] then status else codes[|codes| - 1]
    decreases |codes|
  {
    if codes != [] {
      LastWriteWins(codes[0], codes[1..]);
    }
  }

  /** The status a handler's response ends with, as the wrapper sees it: 200 unless it wrote a header. */
  function CapturedStatus(codes: seq<int>): (s: int)
    ensures codes == [] ==> s == 200
    ensures codes != [] ==> s == codes[|codes| - 1]
  {
    LastWriteWins(200, codes);
    Overwrite(200, codes)
  }

  /** The record built for one request once its handler has returned; the project identifier is left for the client to stamp. */
  function CaptureMetric(req: Request, status: int, elapsedMs: nat, now: int): (m: MetricData)
    ensures m.route == req.path && m.httpMethod == req.httpMethod
    ensures m.statusCode == status && m.responseTime == elapsedMs && m.timestamp == now
    ensures m.projectId == ""
  {
    MetricData(projectId := "", route := req.path, httpMethod := req.httpMethod,
               statusCode := status, responseTime := elapsedMs, timestamp := now)
  }

  /** A final status fixes the response: 101 Switching Protocols, or 200 to 999. Other 1xx codes are informational. */
  predicate Final(code: int)
  {
    code == 101 || 200 <= code <= 999
  }

  /**
   * Whether the server's writer panics on `code` after having been handed
   * `earlier`: a code outside 100 to 999 panics while no final status has
   * gone out; once one has, later calls are ignored.
   */
  predicate Refuses(earlier: seq<int>, code: int)
  {
    (forall i :: 0 <= i < |earlier| ==> !Final(earlier[i])) && !(100 <= code <= 999)
  }

  /** None of the first `n` codes is refused by the server's writer. */
  predicate AcceptedUpTo(codes: seq<int>, n: nat)
    requires n <= |codes|
  {
    forall j :: 0 <= j < n ==> !Refuses(codes[..j], codes[j])
  }

  /** The codes the server's writer is handed, and whether the last of them made it panic. */
  datatype Delivery = Delivery(handed: seq<int>, refused: bool)

  /** Hands `rest` to the server's writer after `handed`, stopping at the first code it refuses. */
  function Deliver(handed: seq<int>, rest: seq<int>): Delivery
    decreases |rest|
  {
    if rest == [] then Delivery(handed, false)
    else if Refuses(handed, rest[0]) then Delivery(handed + [rest[0]], true)
    else Deliver(handed + [rest[0]], rest[1..])
  }

  /** From any accepted prefix, delivery hands on either every code or exactly those up to the first refused one. */
  lemma {:induction false} DeliverFrom(codes: seq<int>, n: nat)
    requires n <= |codes| && AcceptedUpTo(codes, n)
    ensures var r := Deliver(codes[..n], codes[n..]);
      (!r.refused ==> r.handed == codes && AcceptedUpTo(codes, |codes|)) &&
      (r.refused ==> exists k :: n <= k < |codes| && r.handed == codes[..k + 1] &&
                                 AcceptedUpTo(codes, k) && Refuses(codes[..k], codes[k]))
    decreases |codes| - n
  {
    if n == |codes| {
      assert codes[..n] == codes;
    } else {
      assert codes[n..][0] == codes[n];
      assert codes[n..][1..] == codes[n + 1..];
      assert codes[..n] + [codes[n]] == codes[..n + 1];
      if !Refuses(codes[..n], codes[n]) {
        assert AcceptedUpTo(codes, n + 1);
        DeliverFrom(codes, n + 1);
      }
    }
  }

  /**
   * A handler's codes reach the server's writer in order. Either none is
   * refused and all are handed on, or the handing stops at the first refused
   * code, which is the last one handed on.
   */
  lemma DeliverSpec(codes: seq<int>)
    ensures var r := Deliver([], codes);
      (!r.refused ==> r.handed == codes && AcceptedUpTo(codes, |codes|)) &&
      (r.refused ==> exists k :: 0 <= k < |codes| && r.handed == codes[..k + 1] &&
                                 AcceptedUpTo(codes, k) && Refuses(codes[..k], codes[k]))
  {
    assert codes[..0] == [] && codes[0..] == codes;
    DeliverFrom(codes, 0);
  }

  /** An invalid code panics before any final status and is ignored after one; a 1xx code does not protect it. */
  lemma InvalidStatusRefused()
    ensures Deliver([], [42]) == Delivery([42], true)
    ensures Deliver([], [103, 42, 200]) == Delivery([103, 42], true)
    ensures Deliver([], [200, 42]) == Delivery([200, 42], false)
  {
  }

  /** The server's own response writer, as far as status codes go: it keeps every code it is handed and panics on the ones it refuses. */
  class StatusSink {
    var received: seq<int>

    constructor ()
      ensures received == []
    {
      received := [];
    }

    method WriteHeader(code: int) returns (panicked: bool)
      modifies this
      ensures received == old(received) + [code]
      ensures panicked == Refuses(old(received), code)
    {
      panicked := Refuses(received, code);
      received := received + [code];
    }
  }

  /** The wrapper around a handler's response writer: it remembers the status and passes every code on. */
  class ResponseWriter {
    const inner: StatusSink
    var statusCode: int

    constructor (inner: StatusSink)
      ensures this.inner == inner && statusCode == 200
    {
      this.inner := inner;
      statusCode := 200;
    }

    /** The status is recorded before the code is passed on, so a code that makes the server's writer panic is recorded too. */
    method WriteHeader(code: int) returns (panicked: bool)
      modifies this, inner
      ensures statusCode == code
      ensures inner.received == old(inner.received) + [code]
      ensures panicked == Refuses(old(inner.received), code)
    {
      statusCode := code;
      panicked := inner.WriteHeader(code);
    }
  }

  /** What HealthTracker returns: the handler unchanged, or a wrapper that reports through `client`. */
  datatype Middleware = Identity | Capturing(client: Client)

  function Footprint(mw: Middleware): set<object>
  {
    if mw.Capturing? then {mw.client} else {}
  }

  /**
   * Disabled: the identity, and no outbound call at all. Enabled: one client,
   * made with exactly one dial. `calls` lists the outbound calls made.
   */
  method HealthTracker(config: Config, dialed: Option<Conn>) returns (mw: Middleware, ghost calls: seq<Call>)
    ensures mw.Capturing? <==> config.enabled
    ensures calls == if config.enabled then [Dial(config.serverUrl)] else []
    ensures mw.Capturing? ==>
      fresh(mw.client) && mw.client.config == config &&
      mw.client.conn == dialed && mw.client.Calls == calls
  {
    if !config.enabled {
      return Identity, [];
    }
    var client := new Client(config, dialed);
    mw, calls := Capturing(client), client.Calls;
  }

  /**
   * One request through the middleware. The handler writes `codes` in order
   * and, if `handlerPanics`, panics after them. The server's writer is handed
   * the codes up to the first it refuses. A panic, either way, ends the
   * request before any record is built. Otherwise, when capturing, one record
   * is built from the request, the captured status and the elapsed time, and
   * handed to the client. Under the identity nothing is sent. `calls` lists
   * the outbound calls made.
   */
  method ServeRequest(mw: Middleware, req: Request, codes: seq<int>, handlerPanics: bool,
                      elapsedMs: nat, now: int, o: SendOutcomes)
    returns (forwarded: seq<int>, panicked: bool, sent: Option<MetricData>, ghost calls: seq<Call>)
    modifies Footprint(mw)
    ensures forwarded == Deliver([], codes).handed
    ensures panicked == (Deliver([], codes).refused || handlerPanics)
    ensures !panicked ==> forwarded == codes
    ensures mw.Identity? || panicked ==> sent == None && calls == []
    ensures mw.Capturing? && !panicked ==>
      sent == Some(CaptureMetric(req, CapturedStatus(codes), elapsedMs, now)) &&
      calls == Send(old(mw.client.conn), mw.client.config, sent.value, o).calls &&
      mw.client.conn == Send(old(mw.client.conn), mw.client.config, sent.value, o).conn
    ensures mw.Capturing? ==> mw.client.Calls == old(mw.client.Calls) + calls
    ensures mw.Capturing? && panicked ==> mw.client.conn == old(mw.client.conn)
  {
    var sink := new StatusSink();
    var wrapped: ResponseWriter? := null;
    if mw.Capturing? {
      wrapped := new ResponseWriter(sink);
    }
    // the handler runs against the wrapper, or straight against the server's writer
    var i := 0;
    var refused := false;
    assert codes[..0] == [] && codes[0..] == codes;
    while i < |codes| && !refused
      invariant 0 <= i <= |codes|
      invariant sink.received == codes[..i]
      invariant !refused ==> Deliver([], codes) == Deliver(codes[..i], codes[i..])
      invariant refused ==> Deliver([], codes) == Delivery(codes[..i], true)
      invariant mw.Capturing? <==> wrapped != null
      invariant wrapped != null ==> wrapped.inner == sink && wrapped.statusCode == Overwrite(200, codes[..i])
      modifies sink, wrapped
    {
      assert codes[i..][0] == codes[i] && codes[i..][1..] == codes[i + 1..];
      assert codes[..i] + [codes[i]] == codes[..i + 1];
      LastWriteWins(200, codes[..i + 1]);
      if wrapped != null {
        refused := wrapped.WriteHeader(codes[i]);
      } else {
        refused := sink.WriteHeader(codes[i]);
      }
      i := i + 1;
    }
    if !refused {
      assert codes[..i] == codes;
    }
    forwarded, panicked := sink.received, refused || handlerPanics;
    if mw.Identity? || panicked {
      return forwarded, panicked, None, [];
    }
    var metric := CaptureMetric(req, wrapped.statusCode, elapsedMs, now);
    calls := Send(mw.client.conn, mw.client.config, metric, o).calls;
    mw.client.SendMetric(metric, o);
    sent := Some(metric);
  }
}
