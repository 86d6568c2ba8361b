/**
 * The collector's HTTP side (main.go): the cross-origin pre-filter that runs
 * before every handler, the liveness probe and the metrics listing. Routing
 * itself belongs to the web framework; `Serve` models only the three routes
 * the collector registers.
 */
module Queries {

  import opened Store

  datatype Request = Request(httpMethod: string, path: string)

  /** What the pre-filter decides: abort with a status, or hand the request on. */
  datatype Filtered = Abort(status: int) | Next

  datatype Response =
    | Aborted(status: int)                                            // no body
    | Health(status: int, state: string, service: string, metricsCount: int)
    | Listing(status: int, count: int, metrics: seq<Metric>)
    | Stream                                                          // handed to the websocket loop
    | NotRouted                                                       // left to the framework

  /** A pre-flight request is answered with 204 at once; every other method goes on. */
  function Preflight(httpMethod: string): (r: Filtered)
    ensures r.Abort? <==> httpMethod == "OPTIONS"
    ensures r.Abort? ==> r.status == 204
  {
    if httpMethod == "OPTIONS" then Abort(204) else Next
  }

  /**
   * One request against a store holding `stored`. The liveness probe reports
   * the store's length; the listing reports the length and the records in
   * insertion order. Neither changes the store (it is passed by value).
   */
  function Serve(req: Request, stored: seq<Metric>): (r: Response)
    ensures req.httpMethod == "OPTIONS" <==> r == Aborted(204)
    ensures r.Health? <==> req == Request("GET", "/health")
    ensures r.Health? ==> r.status == 200 && r.state == "healthy" && r.metricsCount == |stored|
    ensures r.Listing? <==> req == Request("GET", "/metrics")
    ensures r.Listing? ==> r.status == 200 && r.count == |r.metrics| && r.metrics == stored
    ensures r.Stream? <==> req == Request("GET", "/stream")
  {
    match Preflight(req.httpMethod)
    case Abort(status) => Aborted(status)
    case Next =>
      if req.httpMethod != "GET" then NotRouted
      else if req.path == "/health" then Health(200, "healthy", "prothomuse-health-server", |stored|)
      else if req.path == "/metrics" then Listing(200, |stored|, stored)
      else if req.path == "/stream" then Stream
      else NotRouted
  }

  /** The handlers as the server runs them: each takes the store's read lock only to copy what it reports. */
  method HandleHttp(store: MetricStore, req: Request) returns (r: Response)
    ensures r == Serve(req, store.items)
  {
    if Preflight(req.httpMethod).Abort? {
      return Aborted(204);
    }
    if req.httpMethod != "GET" {
      return NotRouted;
    }
    if req.path == "/health" {
      var count := store.Count();
      r := Health(200, "healthy", "prothomuse-health-server", count);
    } else if req.path == "/metrics" {
      var count, metrics := store.Snapshot();
      r := Listing(200, count, metrics);
    } else if req.path == "/stream" {
      r := Stream;
    } else {
      r := NotRouted;
    }
  }
}
