/**
 * The collector's bounded metric store (main.go): an insertion-ordered buffer of
 * metrics that never holds more than its capacity and evicts the oldest record
 * when a new one arrives while it is full.
 */
module Store {

  /** One observed request/response cycle, as the collector stores it. */
  datatype Metric = Metric(
    projectId: string,
    route: string,
    httpMethod: string,
    statusCode: int,
    responseTime: int,
    timestamp: string)  // kept as the opaque text the producer sent

  /** The collector's fixed capacity. */
  const MaxMetrics: nat := 1000

  /** The newest `n` elements of `s`, oldest first: what a FIFO window of size `n` retains. */
  function Window<T>(s: seq<T>, n: nat): (w: seq<T>)
    ensures |w| == if |s| < n then |s| else n
  {
    if |s| <= n then s else s[|s| - n..]
  }

  /**
   * The store after one insertion: when it is full the head is dropped, then
   * `m` goes to the tail. On a store within capacity this is exactly the
   * window of the newest `capacity` records.
   */
  function Appended(s: seq<Metric>, m: Metric, capacity: nat): (r: seq<Metric>)
    requires 1 <= capacity
    ensures |r| >= 1 && r[|r| - 1] == m
    ensures |s| <= capacity ==> |r| <= capacity
    ensures |s| <= capacity ==> r == Window(s + [m], capacity)
  {
    if |s| >= capacity then s[1..] + [m] else s + [m]
  }

  /** The store after inserting every element of `ms`, in order. */
  function AppendAll(s: seq<Metric>, ms: seq<Metric>, capacity: nat): seq<Metric>
    requires 1 <= capacity
    decreases |ms|
  {
    if ms == [] then s else AppendAll(Appended(s, ms[0], capacity), ms[1..], capacity)
  }

  /** Dropping a prefix of `s` does not change its window as long as at least `n` elements remain. */
  lemma WindowOfSuffix<T>(s: seq<T>, d: nat, n: nat)
    requires d <= |s| && n <= |s| - d
    ensures Window(s[d..], n) == Window(s, n)
  {
    var t := s[d..];
    if |t| > n {
      assert t[|t| - n..] == s[|s| - n..];
    }
  }

  /** Windowing before appending more elements does not change the final window. */
  lemma WindowAbsorbs<T>(a: seq<T>, b: seq<T>, n: nat)
    ensures Window(Window(a, n) + b, n) == Window(a + b, n)
  {
    if |a| > n {
      var d := |a| - n;
      assert Window(a, n) + b == (a + b)[d..];
      WindowOfSuffix(a + b, d, n);
    }
  }

  /** One insertion followed by more: windowing after the insertion loses nothing the final window needs. */
  lemma WindowStep(s: seq<Metric>, m: Metric, rest: seq<Metric>, capacity: nat)
    requires 1 <= capacity && |s| <= capacity
    ensures Window(Appended(s, m, capacity) + rest, capacity) == Window(s + ([m] + rest), capacity)
  {
    assert Appended(s, m, capacity) == Window(s + [m], capacity);
    WindowAbsorbs(s + [m], rest, capacity);
    assert s + [m] + rest == s + ([m] + rest);
  }

  /**
   * Inserting a sequence into a store within capacity leaves exactly the newest
   * `capacity` records of the old contents followed by the sequence, in order.
   */
  lemma {:induction false} AppendAllKeepsNewest(s: seq<Metric>, ms: seq<Metric>, capacity: nat)
    requires 1 <= capacity && |s| <= capacity
    ensures AppendAll(s, ms, capacity) == Window(s + ms, capacity)
    decreases |ms|
  {
    if ms != [] {
      var s' := Appended(s, ms[0], capacity);
      AppendAllKeepsNewest(s', ms[1..], capacity);
      WindowStep(s, ms[0], ms[1..], capacity);
      assert [ms[0]] + ms[1..] == ms;
    }
  }

  /** Starting from an empty store, the store holds the last min(|ms|, capacity) inserted records. */
  lemma {:induction false} FromEmptyKeepsLast(ms: seq<Metric>, capacity: nat)
    requires 1 <= capacity
    ensures AppendAll([], ms, capacity) == if |ms| <= capacity then ms else ms[|ms| - capacity..]
    ensures |AppendAll([], ms, capacity)| <= capacity
  {
    KeepsNewestFromEmpty(ms, capacity);
  }

  lemma KeepsNewestFromEmpty(ms: seq<Metric>, capacity: nat)
    requires 1 <= capacity
    ensures AppendAll([], ms, capacity) == Window(ms, capacity)
  {
    AppendAllKeepsNewest([], ms, capacity);
    assert [] + ms == ms;
  }

  /** Capacity 3, records A..E inserted in order: the store ends as [C, D, E]. */
  lemma {:induction false} ThreeSlotScenario(a: Metric, b: Metric, c: Metric, d: Metric, e: Metric)
    ensures AppendAll([], [a, b, c, d, e], 3) == [c, d, e]
  {
    FromEmptyKeepsLast([a, b, c, d, e], 3);
  }

  /** The shared store: `items` is the global slice, `capacity` the limit it is kept under. */
  class MetricStore {
    var items: seq<Metric>
    const capacity: nat

    ghost predicate Valid()
      reads this
    {
      1 <= capacity && |items| <= capacity
    }

    constructor (capacity: nat)
      requires 1 <= capacity
      ensures Valid() && this.capacity == capacity && items == []
    {
      this.capacity := capacity;
      items := [];
    }

    /** The collector's own store: empty, and never to hold more than `MaxMetrics` records. */
    constructor Collector()
      ensures Valid() && capacity == MaxMetrics && items == []
    {
      capacity := MaxMetrics;
      items := [];
    }

    /** Inserts `m` at the tail, evicting exactly the oldest record first when the store is full. */
    method Append(m: Metric)
      requires Valid()
      modifies this
      ensures Valid()
      ensures items == Appended(old(items), m, capacity)
      ensures |old(items)| < capacity ==> items == old(items) + [m]
      ensures |old(items)| == capacity ==> items == old(items)[1..] + [m]
    {
      if |items| >= capacity {
        items := items[1..];
      }
      items := items + [m];
    }

    /** The number of stored records. */
    method Count() returns (n: nat)
      ensures n == |items|
    {
      n := |items|;
    }

    /** A copy of the stored records in insertion order, with their count. */
    method Snapshot() returns (n: nat, s: seq<Metric>)
      ensures s == items && n == |items|
    {
      s := items;
      n := |s|;
    }
  }
}
