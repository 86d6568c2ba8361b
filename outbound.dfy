/**
 * The producer's outbound client (middlware/client.go): one optional
 * connection to the collector, best-effort sends, and one reconnect attempt
 * after a failed write. Dialing, encoding and writing are outcomes supplied
 * from outside; `Call` records the external calls the client makes.
 */
module Outbound {

  import opened Wrappers
  import opened Settings

  /** A live stream to the collector, as returned by a successful dial. */
  datatype Conn = Conn(id: nat)

  /** The record the producer sends. */
  datatype MetricData = MetricData(
    projectId: string,
    route: string,
    httpMethod: string,
    statusCode: int,
    responseTime: int,  // milliseconds
    timestamp: int)

  /** The external calls the client makes. */
  datatype Call = Dial(url: string) | Write(conn: Conn, frame: MetricData) | Release(conn: Conn)

  /** What the encoder and the network do during one send: whether the record encodes, whether the write succeeds, and what a reconnect's dial returns. */
  datatype SendOutcomes = SendOutcomes(encodes: bool, writeOk: bool, redial: Option<Conn>)

  /** The client's connection together with the calls made so far. */
  datatype ClientState = ClientState(conn: Option<Conn>, calls: seq<Call>)

  /** The record with the configured project identifier in place of whatever it carried. */
  function Stamped(data: MetricData, config: Config): (d: MetricData)
    ensures d.projectId == config.projectId
    ensures d.route == data.route && d.httpMethod == data.httpMethod && d.statusCode == data.statusCode
    ensures d.responseTime == data.responseTime && d.timestamp == data.timestamp
  {
    data.(projectId := config.projectId)
  }

  /**
   * One SendMetric on a client whose connection is `conn`: the connection it
   * leaves and the calls it makes. Nothing happens while disconnected or when
   * the record does not encode; a failed write is followed by exactly one dial,
   * whose result becomes the connection, and the record is not sent again.
   */
  function Send(conn: Option<Conn>, config: Config, data: MetricData, o: SendOutcomes): (r: ClientState)
    ensures conn.None? ==> r == ClientState(None, [])
    ensures conn.Some? && !o.encodes ==> r == ClientState(conn, [])
    ensures conn.Some? && o.encodes && o.writeOk ==> r == ClientState(conn, [Write(conn.value, Stamped(data, config))])
    ensures conn.Some? && o.encodes && !o.writeOk ==>
      r == ClientState(o.redial, [Write(conn.value, Stamped(data, config)), Dial(config.serverUrl)])
  {
    match conn
    case None => ClientState(None, [])
    case Some(c) =>
      var stamped := Stamped(data, config);
      if !o.encodes then ClientState(conn, [])
      else if o.writeOk then ClientState(conn, [Write(c, stamped)])
      else ClientState(o.redial, [Write(c, stamped), Dial(config.serverUrl)])
  }

  /** One record handed to the client, with the outcomes of sending it. */
  datatype Attempt = Attempt(data: MetricData, outcomes: SendOutcomes)

  /** A run of sends, one after another, on the same client. */
  function SendAll(conn: Option<Conn>, config: Config, attempts: seq<Attempt>): ClientState
    decreases |attempts|
  {
    if attempts == [] then ClientState(conn, [])
    else
      var first := Send(conn, config, attempts[0].data, attempts[0].outcomes);
      var later := SendAll(first.conn, config, attempts[1..]);
      ClientState(later.conn, first.calls + later.calls)
  }

  /** The frames written, in order. */
  function Written(calls: seq<Call>): seq<MetricData>
    decreases |calls|
  {
    if calls == [] then []
    else (if calls[0].Write? then [calls[0].frame] else []) + Written(calls[1..])
  }

  /** The number of dials. */
  function Dials(calls: seq<Call>): nat
    decreases |calls|
  {
    if calls == [] then 0 else (if calls[0].Dial? then 1 else 0) + Dials(calls[1..])
  }

  lemma {:induction false} CountsAppend(a: seq<Call>, b: seq<Call>)
    ensures Written(a + b) == Written(a) + Written(b)
    ensures Dials(a + b) == Dials(a) + Dials(b)
  {
    WrittenAppend(a, b);
    DialsAppend(a, b);
  }

  lemma {:induction false} WrittenAppend(a: seq<Call>, b: seq<Call>)
    ensures Written(a + b) == Written(a) + Written(b)
    decreases |a|
  {
    if a == [] {
      assert a + b == b;
    } else {
      assert (a + b)[0] == a[0] && (a + b)[1..] == a[1..] + b;
      WrittenAppend(a[1..], b);
    }
  }

  lemma {:induction false} DialsAppend(a: seq<Call>, b: seq<Call>)
    ensures Dials(a + b) == Dials(a) + Dials(b)
    decreases |a|
  {
    if a == [] {
      assert a + b == b;
    } else {
      assert (a + b)[0] == a[0] && (a + b)[1..] == a[1..] + b;
      DialsAppend(a[1..], b);
    }
  }

  /** Once disconnected, a client makes no call and stays disconnected, however many records it is handed. */
  lemma {:induction false} DisconnectedStaysSilent(config: Config, attempts: seq<Attempt>)
    ensures SendAll(None, config, attempts) == ClientState(None, [])
    decreases |attempts|
  {
    if attempts != [] {
      DisconnectedStaysSilent(config, attempts[1..]);
    }
  }

  /** The records handed to the client, each with the project identifier it would be sent with, in order. */
  function Stamps(config: Config, attempts: seq<Attempt>): seq<MetricData>
    decreases |attempts|
  {
    if attempts == [] then [] else [Stamped(attempts[0].data, config)] + Stamps(config, attempts[1..])
  }

  /** Each dial is immediately preceded by a write (so no trace starts with one). */
  predicate DialsFollowWrites(calls: seq<Call>)
  {
    forall k :: 0 <= k < |calls| && calls[k].Dial? ==> 0 < k && calls[k - 1].Write?
  }

  lemma DialsFollowWritesAppend(a: seq<Call>, b: seq<Call>)
    requires DialsFollowWrites(a) && DialsFollowWrites(b)
    ensures DialsFollowWrites(a + b)
  {
    var ab := a + b;
    forall k | 0 <= k < |ab| && ab[k].Dial?
      ensures 0 < k && ab[k - 1].Write?
    {
      if k < |a| {
        assert ab[k] == a[k] && ab[k - 1] == a[k - 1];
      } else {
        assert ab[k] == b[k - |a|];
        assert 0 < k - |a|;
        assert ab[k - 1] == b[k - |a| - 1];
      }
    }
  }

  /** What one send contributes to the trace. */
  lemma SendStep(conn: Option<Conn>, config: Config, a: Attempt)
    ensures Written(Send(conn, config, a.data, a.outcomes).calls) ==
      if conn.Some? && a.outcomes.encodes then [Stamped(a.data, config)] else []
    ensures Dials(Send(conn, config, a.data, a.outcomes).calls) ==
      if conn.Some? && a.outcomes.encodes && !a.outcomes.writeOk then 1 else 0
    ensures DialsFollowWrites(Send(conn, config, a.data, a.outcomes).calls)
    ensures forall c :: c in Send(conn, config, a.data, a.outcomes).calls && c.Dial? ==> c.url == config.serverUrl
  {
    var calls := Send(conn, config, a.data, a.outcomes).calls;
    if conn.Some? && a.outcomes.encodes {
      var w := Write(conn.value, Stamped(a.data, config));
      assert calls[0] == w;
      if a.outcomes.writeOk {
        assert calls[1..] == [];
      } else {
        var t := calls[1..];
        assert t == [Dial(config.serverUrl)] && t[0].Dial? && t[1..] == [];
        assert Dials(t) == 1 + Dials(t[1..]);
        assert Written(t) == [] + Written(t[1..]);
      }
    }
  }

  /** The frames written over a run are a sub-multiset of the stamped records handed over. */
  lemma {:induction false} WrittenAreStamps(conn: Option<Conn>, config: Config, attempts: seq<Attempt>)
    ensures multiset(Written(SendAll(conn, config, attempts).calls)) <= multiset(Stamps(config, attempts))
    ensures |Written(SendAll(conn, config, attempts).calls)| <= |attempts|
    decreases |attempts|
  {
    if attempts != [] {
      var a := attempts[0];
      var first := Send(conn, config, a.data, a.outcomes);
      WrittenAreStamps(first.conn, config, attempts[1..]);
      var later := SendAll(first.conn, config, attempts[1..]);
      CountsAppend(first.calls, later.calls);
      SendStep(conn, config, a);
      assert Stamps(config, attempts) == [Stamped(a.data, config)] + Stamps(config, attempts[1..]);
    }
  }

  /** Over a run, every dial goes to the configured address and comes straight after a write. */
  lemma {:induction false} DialsAreReconnects(conn: Option<Conn>, config: Config, attempts: seq<Attempt>)
    ensures Dials(SendAll(conn, config, attempts).calls) <= |Written(SendAll(conn, config, attempts).calls)|
    ensures forall c :: c in SendAll(conn, config, attempts).calls && c.Dial? ==> c.url == config.serverUrl
    ensures DialsFollowWrites(SendAll(conn, config, attempts).calls)
    decreases |attempts|
  {
    if attempts != [] {
      var a := attempts[0];
      var first := Send(conn, config, a.data, a.outcomes);
      DialsAreReconnects(first.conn, config, attempts[1..]);
      var later := SendAll(first.conn, config, attempts[1..]);
      CountsAppend(first.calls, later.calls);
      SendStep(conn, config, a);
      DialsFollowWritesAppend(first.calls, later.calls);
    }
  }

  lemma {:induction false} StampsLength(config: Config, attempts: seq<Attempt>)
    ensures |Stamps(config, attempts)| == |attempts|
    ensures forall f :: f in Stamps(config, attempts) ==> f.projectId == config.projectId
    decreases |attempts|
  {
    if attempts != [] {
      StampsLength(config, attempts[1..]);
    }
  }

  /**
   * Delivery is at most once: each record handed over is written at most once
   * and never a record that was not handed over, always stamped with the
   * configured project; every dial is a reconnect that comes straight after a
   * write, to the configured address, so there are no more dials than writes.
   */
  lemma {:induction false} AtMostOnce(conn: Option<Conn>, config: Config, attempts: seq<Attempt>)
    ensures multiset(Written(SendAll(conn, config, attempts).calls)) <= multiset(Stamps(config, attempts))
    ensures |Written(SendAll(conn, config, attempts).calls)| <= |attempts|
    ensures Dials(SendAll(conn, config, attempts).calls) <= |Written(SendAll(conn, config, attempts).calls)|
    ensures forall f :: f in Written(SendAll(conn, config, attempts).calls) ==> f.projectId == config.projectId
    ensures forall c :: c in SendAll(conn, config, attempts).calls && c.Dial? ==> c.url == config.serverUrl
    ensures DialsFollowWrites(SendAll(conn, config, attempts).calls)
  {
    var w := Written(SendAll(conn, config, attempts).calls);
    WrittenAreStamps(conn, config, attempts);
    DialsAreReconnects(conn, config, attempts);
    StampsLength(config, attempts);
    forall f | f in w ensures f.projectId == config.projectId {
      assert f in multiset(w);
      assert f in multiset(Stamps(config, attempts));
    }
  }

  /** The producer's client: its configuration, its connection (None when the last dial failed) and the calls made so far. */
  class Client {
    const config: Config
    var conn: Option<Conn>
    ghost var Calls: seq<Call>

    /** NewClient: exactly one connection attempt. */
    constructor (config: Config, dialed: Option<Conn>)
      ensures this.config == config && conn == dialed && Calls == [Dial(config.serverUrl)]
    {
      this.config := config;
      conn := None;
      Calls := [];
      new;
      Connect(dialed);
    }

    /** Dials the configured address; the connection becomes whatever the dial returned. */
    method Connect(dialed: Option<Conn>)
      modifies this
      ensures conn == dialed && Calls == old(Calls) + [Dial(config.serverUrl)]
    {
      Calls := Calls + [Dial(config.serverUrl)];
      conn := dialed;
    }

    method SendMetric(data: MetricData, o: SendOutcomes)
      modifies this
      ensures conn == Send(old(conn), config, data, o).conn
      ensures Calls == old(Calls) + Send(old(conn), config, data, o).calls
    {
      if conn.None? {
        return;
      }
      var stamped := Stamped(data, config);
      if !o.encodes {
        return;
      }
      Calls := Calls + [Write(conn.value, stamped)];
      if !o.writeOk {
        Connect(o.redial);
      }
    }

    /** Releases the connection if there is one; the field keeps its value. */
    method Close()
      modifies this
      ensures conn == old(conn)
      ensures Calls == old(Calls) + (if conn.Some? then [Release(conn.value)] else [])
    {
      if conn.Some? {
        Calls := Calls + [Release(conn.value)];
      }
    }
  }
}
