/** The bounded, time-stamped FIFO that decouples telemetry producers from the
    uploader (vcuui/transmit_queue.py). The lock around every operation is
    left out: each method is one atomic step. */
module TransmitQueue {

  /** One queued record: `{"time": <ms>, "data": <data>}`. */
  datatype Entry<T> = Entry(time: int, data: T)

  /** Python's normalisation of a slice bound `n` against a list of length `len`:
      negative bounds count from the end, and every bound is clamped to the list. */
  function SliceBound(n: int, len: nat): (k: nat)
    ensures k <= len
    ensures 0 <= n ==> k == if n < len then n else len
    ensures n < 0 ==> k + -n == len || (k == 0 && len < -n)
  {
    if n < 0 then (if len + n < 0 then 0 else len + n)
    else if n < len then n else len
  }

  /** The queue after `add`: when it is full its head is dropped, then the
      new entry goes to the tail. */
  function Added<T>(q: seq<Entry<T>>, capacity: nat, e: Entry<T>): seq<Entry<T>> {
    (if |q| >= capacity && q != [] then q[1..] else q) + [e]
  }

  /** The newest `n` elements of `s` (all of `s` when it is shorter). */
  function Newest<T>(n: nat, s: seq<T>): (r: seq<T>)
    ensures |r| == if |s| <= n then |s| else n
    ensures r == s[|s| - |r|..]
  {
    if |s| <= n then s else s[|s| - n..]
  }

  /** A run of `add` calls, one per entry of `es`, in order. */
  function AddAll<T>(q: seq<Entry<T>>, capacity: nat, es: seq<Entry<T>>): seq<Entry<T>>
    decreases |es|
  {
    if es == [] then q else AddAll(Added(q, capacity, es[0]), capacity, es[1..])
  }

  /** One `add` keeps the length within the capacity: the queue grows by one
      while there is room and keeps its length once full; the new entry is
      the tail and the older entries keep their order, only the head being
      dropped when the queue was full. */
  lemma AddedShape<T>(q: seq<Entry<T>>, capacity: nat, e: Entry<T>)
    requires 1 <= capacity && |q| <= capacity
    ensures var r := Added(q, capacity, e);
      && |r| <= capacity
      && |r| == (if |q| < capacity then |q| + 1 else |q|)
      && r[|r| - 1] == e
      && r[..|r| - 1] == (if |q| < capacity then q else q[1..])
  {
  }

  lemma {:induction false} NewestOfNewest<T>(n: nat, a: seq<T>, b: seq<T>)
    ensures Newest(n, Newest(n, a) + b) == Newest(n, a + b)
  {
    var na := Newest(n, a);
    if |a| > n {
      assert a + b == a[..|a| - n] + (na + b);
      assert (a + b)[|a + b| - |Newest(n, na + b)|..] == (na + b)[|na + b| - |Newest(n, na + b)|..];
    }
  }

  /** Whatever was added, the queue holds exactly the newest `capacity`
      entries of everything it held and everything added since. */
  lemma {:induction false} AddAllKeepsNewest<T>(q: seq<Entry<T>>, capacity: nat, es: seq<Entry<T>>)
    requires 1 <= capacity && |q| <= capacity
    ensures AddAll(q, capacity, es) == Newest(capacity, q + es)
    decreases |es|
  {
    if es == [] {
      assert q + es == q;
    } else {
      var q1 := Added(q, capacity, es[0]);
      assert q1 == Newest(capacity, q + [es[0]]);
      AddAllKeepsNewest(q1, capacity, es[1..]);
      NewestOfNewest(capacity, q + [es[0]], es[1..]);
      assert q + [es[0]] + es[1..] == q + es;
    }
  }

  /** The example of the queue's own tests: capacity 2, data 1, 2, 3 leaves
      [2, 3]; adding 4 then leaves [3, 4]. */
  lemma CapacityTwoEvictsOldest(t1: int, t2: int, t3: int, t4: int)
    ensures var q3 := AddAll([], 2, [Entry(t1, 1), Entry(t2, 2), Entry(t3, 3)]);
      && q3 == [Entry(t2, 2), Entry(t3, 3)]
      && Added(q3, 2, Entry(t4, 4)) == [Entry(t3, 3), Entry(t4, 4)]
  {
    AddAllKeepsNewest([], 2, [Entry(t1, 1), Entry(t2, 2), Entry(t3, 3)]);
  }

  class TransmitQueue<T> {
    const maxQueueSize: nat
    var dataQueue: seq<Entry<T>>

    ghost predicate Valid()
      reads this
    {
      1 <= maxQueueSize < 3000 && |dataQueue| <= maxQueueSize
    }

    constructor (maxQueueSize: int)
      requires 1 <= maxQueueSize < 3000
      ensures Valid()
      ensures this.maxQueueSize == maxQueueSize && dataQueue == []
    {
      this.maxQueueSize := maxQueueSize;
      dataQueue := [];
    }

    method NumEntries() returns (n: nat)
      ensures n == |dataQueue|
    {
      n := |dataQueue|;
    }

    /** Every entry, oldest first, in insertion order. */
    method AllEntries() returns (entries: seq<Entry<T>>)
      ensures entries == dataQueue
    {
      entries := dataQueue;
    }

    /** The oldest `num` entries; never fails when `num` exceeds the length. */
    method FirstEntries(num: int) returns (entries: seq<Entry<T>>)
      ensures entries <= dataQueue
      ensures 0 <= num ==> |entries| == if num < |dataQueue| then num else |dataQueue|
      ensures num < 0 ==> |entries| == SliceBound(num, |dataQueue|)
    {
      var max := |dataQueue|;
      var n := num;
      if n > max {
        n := max;
      }
      entries := dataQueue[..SliceBound(n, |dataQueue|)];
    }

    /** Drops the oldest `num` entries; never fails when `num` exceeds the length. */
    method RemoveFirst(num: int)
      requires Valid()
      modifies this
      ensures Valid()
      ensures dataQueue == old(dataQueue)[SliceBound(num, |old(dataQueue)|)..]
    {
      var max := |dataQueue|;
      var n := num;
      if n > max {
        n := max;
      }
      dataQueue := dataQueue[SliceBound(n, |dataQueue|)..];
    }

    /** Appends `{time: nowMs, data}`, dropping the oldest entry first when full. */
    method Add(data: T, nowMs: int)
      requires Valid()
      modifies this
      ensures Valid()
      ensures dataQueue == Added(old(dataQueue), maxQueueSize, Entry(nowMs, data))
    {
      var dataSet := Entry(nowMs, data);
      var numEntries := |dataQueue|;
      if numEntries >= maxQueueSize {
        dataQueue := dataQueue[1..];
      }
      dataQueue := dataQueue + [dataSet];
    }

    /** Takes the first `amount` entries off the queue and returns them. */
    method DequeueHead(amount: int) returns (data: seq<Entry<T>>)
      requires Valid()
      modifies this
      ensures Valid()
      ensures data + dataQueue == old(dataQueue)
      ensures data == old(dataQueue)[..SliceBound(amount, |old(dataQueue)|)]
    {
      var k := SliceBound(amount, |dataQueue|);
      data := dataQueue[..k];
      dataQueue := dataQueue[k..];
      assert data + dataQueue == old(dataQueue);
    }
  }
}
