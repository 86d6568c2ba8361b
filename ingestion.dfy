/**
 * The collector's per-connection receive loop (main.go, handleWebSocket). The
 * websocket and JSON steps are abstract: each turn of the loop observes one
 * `Event`, which says whether the context was cancelled, whether the read
 * failed, whether the frame decoded, and whether the acknowledgment could be
 * encoded and written.
 */
module Ingestion {

  import opened Wrappers
  import opened Store

  /** The acknowledgment frame `{status, route}` sent back for a stored metric. */
  datatype Ack = Ack(status: string, route: string)

  function AckFor(m: Metric): Ack
  {
    Ack("received", m.route)
  }

  /** What one turn of the loop observes. */
  datatype Event =
    | Shutdown   // the server context is done when the turn starts
    | ReadError  // reading the next frame fails
    | Malformed  // a frame arrives that does not decode as a metric
    | Received(metric: Metric, ackEncoded: bool, ackWritten: bool)
      // a frame decodes to `metric`; then the acknowledgment is encoded (or not) and written (or not)

  /** Why a connection's loop stopped; `Open` when the observed events ran out with the loop still reading. */
  datatype EndReason = UpgradeFailed | Cancelled | ReadFailed | AckWriteFailed | Open

  /** The store, the acknowledgments written on the connection, and how the loop ended. */
  datatype Session = Session(stored: seq<Metric>, acks: seq<Ack>, end: EndReason)

  /** The events on which the loop returns. */
  predicate Ends(e: Event)
  {
    e.Shutdown? || e.ReadError? || (e.Received? && e.ackEncoded && !e.ackWritten)
  }

  function Reason(e: Event): EndReason
    requires Ends(e)
  {
    if e.Shutdown? then Cancelled else if e.ReadError? then ReadFailed else AckWriteFailed
  }

  /**
   * The receive loop from store `stored`, with `acks` already written, over
   * `events`: acknowledgments are only ever added, the store stays within
   * capacity, and the loop never reports an upgrade failure.
   */
  function Run(stored: seq<Metric>, acks: seq<Ack>, events: seq<Event>, capacity: nat): (r: Session)
    requires 1 <= capacity
    ensures |stored| <= capacity ==> |r.stored| <= capacity
    ensures |acks| <= |r.acks| && r.acks[..|acks|] == acks
    ensures r.end != UpgradeFailed
    decreases |events|
  {
    if events == [] then Session(stored, acks, Open)
    else match events[0]
      case Shutdown => Session(stored, acks, Cancelled)
      case ReadError => Session(stored, acks, ReadFailed)
      case Malformed => Run(stored, acks, events[1..], capacity)
      case Received(m, encoded, written) =>
        var stored' := Appended(stored, m, capacity);
        if !encoded then Run(stored', acks, events[1..], capacity)
        else if !written then Session(stored', acks, AckWriteFailed)
        else Run(stored', acks + [AckFor(m)], events[1..], capacity)
  }

  /** A whole connection: a failed upgrade leaves the store as it was and sends nothing, and only it ends that way. */
  function Connection(upgraded: bool, stored: seq<Metric>, events: seq<Event>, capacity: nat): (r: Session)
    requires 1 <= capacity
    ensures r.end == UpgradeFailed <==> !upgraded
    ensures !upgraded ==> r.stored == stored && r.acks == []
    ensures |stored| <= capacity ==> |r.stored| <= capacity
  {
    if upgraded then Run(stored, [], events, capacity) else Session(stored, [], UpgradeFailed)
  }

  /** The position of the first event on which the loop returns, if any. */
  function FirstEnd(events: seq<Event>): (r: Option<nat>)
    ensures r.Some? ==> r.value < |events| && Ends(events[r.value])
    ensures r.Some? ==> forall j :: 0 <= j < r.value ==> !Ends(events[j])
    ensures r.None? ==> forall j :: 0 <= j < |events| ==> !Ends(events[j])
    decreases |events|
  {
    if events == [] then None
    else if Ends(events[0]) then Some(0)
    else match FirstEnd(events[1..])
      case None => None
      case Some(k) => Some(k + 1)
  }

  /** The events the loop takes up: all of them, or those up to and including the first that ends it. */
  function Processed(events: seq<Event>): seq<Event>
  {
    match FirstEnd(events)
    case None => events
    case Some(k) => events[..k + 1]
  }

  function EndOf(events: seq<Event>): EndReason
  {
    match FirstEnd(events)
    case None => Open
    case Some(k) => Reason(events[k])
  }

  /** The metrics carried by the frames that decode, in order. */
  function Decoded(events: seq<Event>): seq<Metric>
    decreases |events|
  {
    if events == [] then [] else DecodedOf(events[0]) + Decoded(events[1..])
  }

  function DecodedOf(e: Event): seq<Metric>
  {
    if e.Received? then [e.metric] else []
  }

  /** The metrics whose acknowledgment was encoded and written, in order. */
  function Confirmed(events: seq<Event>): seq<Metric>
    decreases |events|
  {
    if events == [] then [] else ConfirmedOf(events[0]) + Confirmed(events[1..])
  }

  function ConfirmedOf(e: Event): seq<Metric>
  {
    if e.Received? && e.ackEncoded && e.ackWritten then [e.metric] else []
  }

  function AcksOf(ms: seq<Metric>): seq<Ack>
    decreases |ms|
  {
    if ms == [] then [] else [AckFor(ms[0])] + AcksOf(ms[1..])
  }

  lemma {:induction false} DecodedAppend(a: seq<Event>, b: seq<Event>)
    ensures Decoded(a + b) == Decoded(a) + Decoded(b)
    decreases |a|
  {
    if a == [] {
      assert a + b == b;
    } else {
      var ab := a + b;
      assert ab[0] == a[0] && ab[1..] == a[1..] + b;
      DecodedAppend(a[1..], b);
      calc {
        Decoded(ab);
        DecodedOf(a[0]) + Decoded(a[1..] + b);
        DecodedOf(a[0]) + (Decoded(a[1..]) + Decoded(b));
        (DecodedOf(a[0]) + Decoded(a[1..])) + Decoded(b);
      }
    }
  }

  lemma {:induction false} ConfirmedAppend(a: seq<Event>, b: seq<Event>)
    ensures Confirmed(a + b) == Confirmed(a) + Confirmed(b)
    decreases |a|
  {
    if a == [] {
      assert a + b == b;
    } else {
      var ab := a + b;
      assert ab[0] == a[0] && ab[1..] == a[1..] + b;
      ConfirmedAppend(a[1..], b);
      calc {
        Confirmed(ab);
        ConfirmedOf(a[0]) + Confirmed(a[1..] + b);
        ConfirmedOf(a[0]) + (Confirmed(a[1..]) + Confirmed(b));
        (ConfirmedOf(a[0]) + Confirmed(a[1..])) + Confirmed(b);
      }
    }
  }

  lemma {:induction false} AcksOfAppend(a: seq<Metric>, b: seq<Metric>)
    ensures AcksOf(a + b) == AcksOf(a) + AcksOf(b)
    decreases |a|
  {
    if a == [] {
      assert a + b == b;
    } else {
      assert (a + b)[0] == a[0] && (a + b)[1..] == a[1..] + b;
      AcksOfAppend(a[1..], b);
    }
  }

  lemma {:induction false} AppendAllSplit(s: seq<Metric>, a: seq<Metric>, b: seq<Metric>, capacity: nat)
    requires 1 <= capacity
    ensures AppendAll(s, a + b, capacity) == AppendAll(AppendAll(s, a, capacity), b, capacity)
    decreases |a|
  {
    if a == [] {
      assert a + b == b;
    } else {
      assert (a + b)[0] == a[0] && (a + b)[1..] == a[1..] + b;
      AppendAllSplit(Appended(s, a[0], capacity), a[1..], b, capacity);
    }
  }

  /** One turn of the loop that does not end it: the store and acknowledgments after it. */
  lemma RunStep(stored: seq<Metric>, acks: seq<Ack>, events: seq<Event>, capacity: nat)
    requires 1 <= capacity && events != [] && !Ends(events[0])
    ensures Run(stored, acks, events, capacity) ==
      Run(AppendAll(stored, DecodedOf(events[0]), capacity), acks + AcksOf(ConfirmedOf(events[0])), events[1..], capacity)
  {
    var e := events[0];
    if e.Received? {
      assert AppendAll(stored, [e.metric], capacity) == AppendAll(Appended(stored, e.metric, capacity), [], capacity);
      if e.ackEncoded {
        assert ConfirmedOf(e) == [e.metric];
        assert [e.metric][1..] == [];
        assert AcksOf([e.metric]) == [AckFor(e.metric)];
      } else {
        assert acks + [] == acks;
      }
    } else {
      assert acks + [] == acks;
    }
  }

  lemma ProcessedStep(events: seq<Event>)
    requires events != [] && !Ends(events[0])
    ensures Processed(events) == [events[0]] + Processed(events[1..])
    ensures EndOf(events) == EndOf(events[1..])
  {
  }

  lemma ProcessedStop(events: seq<Event>)
    requires events != [] && Ends(events[0])
    ensures Processed(events) == [events[0]]
    ensures EndOf(events) == Reason(events[0])
  {
  }

  lemma ConsCase(e: Event, x: seq<Event>)
    ensures Decoded([e] + x) == DecodedOf(e) + Decoded(x)
    ensures Confirmed([e] + x) == ConfirmedOf(e) + Confirmed(x)
  {
    assert ([e] + x)[0] == e && ([e] + x)[1..] == x;
  }

  lemma RunSpecStop(stored: seq<Metric>, acks: seq<Ack>, events: seq<Event>, capacity: nat)
    requires 1 <= capacity && events != [] && Ends(events[0])
    ensures Run(stored, acks, events, capacity) ==
      Session(AppendAll(stored, Decoded(Processed(events)), capacity),
              acks + AcksOf(Confirmed(Processed(events))),
              EndOf(events))
  {
    var e := events[0];
    ProcessedStop(events);
    ConsCase(e, []);
    assert [e] + [] == [e];
    assert ConfirmedOf(e) == [] && acks + AcksOf([]) == acks;
    if e.Received? {
      assert [e.metric][1..] == [];
      assert AppendAll(stored, [e.metric], capacity) == Appended(stored, e.metric, capacity);
    }
  }

  /**
   * The loop, described without reference to its own recursion: it stores
   * every decoded metric among the events it takes up, writes one
   * acknowledgment per metric whose acknowledgment was encoded and written,
   * and ends for the reason of the first event that ends it (or stays open).
   */
  lemma {:induction false} RunSpec(stored: seq<Metric>, acks: seq<Ack>, events: seq<Event>, capacity: nat)
    requires 1 <= capacity
    ensures Run(stored, acks, events, capacity) ==
      Session(AppendAll(stored, Decoded(Processed(events)), capacity),
              acks + AcksOf(Confirmed(Processed(events))),
              EndOf(events))
    decreases |events|
  {
    if events == [] {
      assert acks + [] == acks;
    } else if Ends(events[0]) {
      RunSpecStop(stored, acks, events, capacity);
    } else {
      var e := events[0];
      RunSpec(AppendAll(stored, DecodedOf(e), capacity), acks + AcksOf(ConfirmedOf(e)), events[1..], capacity);
      RunSpecContinue(stored, acks, events, capacity);
    }
  }

  /** The step of `RunSpec` for an event that does not end the loop, given the property for the rest. */
  lemma RunSpecContinue(stored: seq<Metric>, acks: seq<Ack>, events: seq<Event>, capacity: nat)
    requires 1 <= capacity && events != [] && !Ends(events[0])
    requires
      var stored1, acks1, rest := AppendAll(stored, DecodedOf(events[0]), capacity), acks + AcksOf(ConfirmedOf(events[0])), events[1..];
      Run(stored1, acks1, rest, capacity) ==
        Session(AppendAll(stored1, Decoded(Processed(rest)), capacity), acks1 + AcksOf(Confirmed(Processed(rest))), EndOf(rest))
    ensures Run(stored, acks, events, capacity) ==
      Session(AppendAll(stored, Decoded(Processed(events)), capacity),
              acks + AcksOf(Confirmed(Processed(events))),
              EndOf(events))
  {
    var e, rest := events[0], events[1..];
    RunStep(stored, acks, events, capacity);
    ProcessedStep(events);
    StoredStep(stored, e, Processed(rest), capacity);
    AcksStep(acks, e, Processed(rest));
  }

  lemma StoredStep(stored: seq<Metric>, e: Event, rest: seq<Event>, capacity: nat)
    requires 1 <= capacity
    ensures AppendAll(AppendAll(stored, DecodedOf(e), capacity), Decoded(rest), capacity)
      == AppendAll(stored, Decoded([e] + rest), capacity)
  {
    ConsCase(e, rest);
    AppendAllSplit(stored, DecodedOf(e), Decoded(rest), capacity);
  }

  lemma AcksStep(acks: seq<Ack>, e: Event, rest: seq<Event>)
    ensures acks + AcksOf(ConfirmedOf(e)) + AcksOf(Confirmed(rest)) == acks + AcksOf(Confirmed([e] + rest))
  {
    var x, y := AcksOf(ConfirmedOf(e)), AcksOf(Confirmed(rest));
    assert acks + x + y == acks + (x + y);
    ConsCase(e, rest);
    AcksOfAppend(ConfirmedOf(e), Confirmed(rest));
  }

  /** After a connection, the store holds the newest `capacity` of its old records followed by the decoded metrics. */
  lemma {:induction false} RunKeepsNewest(stored: seq<Metric>, events: seq<Event>, capacity: nat)
    requires 1 <= capacity && |stored| <= capacity
    ensures Run(stored, [], events, capacity).stored == Window(stored + Decoded(Processed(events)), capacity)
  {
    RunSpec(stored, [], events, capacity);
    AppendAllKeepsNewest(stored, Decoded(Processed(events)), capacity);
  }

  /** The loop stays open exactly when no event ends it, and otherwise ends for the first ending event's reason. */
  lemma {:induction false} RunEnds(stored: seq<Metric>, events: seq<Event>, capacity: nat)
    requires 1 <= capacity
    ensures Run(stored, [], events, capacity).end == Open <==> forall k :: 0 <= k < |events| ==> !Ends(events[k])
    ensures Run(stored, [], events, capacity).end != Open ==>
      exists k :: 0 <= k < |events| && Ends(events[k]) && Reason(events[k]) == Run(stored, [], events, capacity).end &&
        forall j :: 0 <= j < k ==> !Ends(events[j])
  {
    RunSpec(stored, [], events, capacity);
  }

  /** When every acknowledgment is encoded and written, each decoded metric gets exactly one acknowledgment echoing its route, in order. */
  lemma {:induction false} EveryStoredMetricAcknowledged(stored: seq<Metric>, events: seq<Event>, capacity: nat)
    requires 1 <= capacity
    requires forall k :: 0 <= k < |events| && events[k].Received? ==> events[k].ackEncoded && events[k].ackWritten
    ensures Run(stored, [], events, capacity).acks == AcksOf(Decoded(Processed(events)))
    ensures |Run(stored, [], events, capacity).acks| == |Decoded(Processed(events))|
  {
    RunSpec(stored, [], events, capacity);
    var p := Processed(events);
    assert forall k :: 0 <= k < |p| ==> p[k] == events[k];
    ConfirmedIsDecoded(p);
    AcksOfLength(Decoded(p));
    assert [] + AcksOf(Confirmed(p)) == AcksOf(Confirmed(p));
  }

  lemma {:induction false} ConfirmedIsDecoded(events: seq<Event>)
    requires forall k :: 0 <= k < |events| && events[k].Received? ==> events[k].ackEncoded && events[k].ackWritten
    ensures Confirmed(events) == Decoded(events)
    decreases |events|
  {
    if events != [] {
      assert forall k :: 0 <= k < |events[1..]| ==> events[1..][k] == events[k + 1];
      ConfirmedIsDecoded(events[1..]);
    }
  }

  lemma {:induction false} AcksOfLength(ms: seq<Metric>)
    ensures |AcksOf(ms)| == |ms|
    ensures forall k :: 0 <= k < |ms| ==> AcksOf(ms)[k] == Ack("received", ms[k].route)
    decreases |ms|
  {
    if ms != [] {
      AcksOfLength(ms[1..]);
    }
  }

  /** A frame that does not decode changes nothing: not the store, not the acknowledgments, not whether the loop goes on. */
  lemma {:induction false} MalformedFrameIgnored(stored: seq<Metric>, acks: seq<Ack>, before: seq<Event>, after: seq<Event>, capacity: nat)
    requires 1 <= capacity
    ensures Run(stored, acks, before + [Malformed] + after, capacity) == Run(stored, acks, before + after, capacity)
    decreases |before|
  {
    if before == [] {
      var evs := before + [Malformed] + after;
      assert evs == [Malformed] + after && before + after == after;
      assert evs[0] == Malformed && evs[1..] == after;
    } else {
      var e := before[0];
      assert (before + [Malformed] + after)[0] == e && (before + after)[0] == e;
      assert (before + [Malformed] + after)[1..] == before[1..] + [Malformed] + after;
      assert (before + after)[1..] == before[1..] + after;
      if !Ends(e) {
        MalformedFrameIgnored(if e.Received? then Appended(stored, e.metric, capacity) else stored,
                              if e.Received? && e.ackEncoded then acks + [AckFor(e.metric)] else acks,
                              before[1..], after, capacity);
      }
    }
  }

  /**
   * handleWebSocket: after a successful upgrade, read frames until the context
   * is done, a read fails or an acknowledgment cannot be written.
   */
  method HandleWebSocket(store: MetricStore, upgraded: bool, events: seq<Event>) returns (acks: seq<Ack>, end: EndReason)
    requires store.Valid()
    modifies store
    ensures store.Valid()
    ensures Session(store.items, acks, end) == Connection(upgraded, old(store.items), events, store.capacity)
  {
    acks := [];
    if !upgraded {
      return acks, UpgradeFailed;
    }
    var i := 0;
    while i < |events|
      invariant 0 <= i <= |events| && store.Valid()
      invariant Run(old(store.items), [], events, store.capacity) == Run(store.items, acks, events[i..], store.capacity)
    {
      assert events[i..][1..] == events[i + 1..];
      match events[i]
      case Shutdown =>
        return acks, Cancelled;
      case ReadError =>
        return acks, ReadFailed;
      case Malformed =>
        i := i + 1;
      case Received(m, encoded, written) =>
        store.Append(m);
        if encoded {
          if !written {
            return acks, AckWriteFailed;
          }
          acks := acks + [AckFor(m)];
        }
        i := i + 1;
    }
    end := Open;
  }
}
