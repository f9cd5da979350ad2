/** The pending-task queue: a FIFO of at most `Capacity` tasks whose `offer`
    drops the task instead of blocking when the queue is full. */
module RequestQueue {
  import opened Targets

  const Capacity: nat := 500

  /** One pending load: where the result goes, what to fetch and how. */
  datatype Task = Task(
    target: Target,
    coverArt: string,
    size: int,
    reflection: bool,
    saveToFile: bool,
    crossfade: bool)

  /** `queue.offer(task)`: appended at the tail below capacity, dropped at it. */
  function Offer(q: seq<Task>, t: Task): (r: seq<Task>)
    ensures |q| < Capacity ==> |r| == |q| + 1 && r[..|q|] == q && r[|q|] == t
    ensures |q| >= Capacity ==> r == q
    ensures |q| <= Capacity ==> |r| <= Capacity
  {
    if |q| < Capacity then q + [t] else q
  }

  /** Offering several tasks one after another. */
  function OfferAll(q: seq<Task>, ts: seq<Task>): seq<Task>
    decreases |ts|
  {
    if |ts| == 0 then q else OfferAll(Offer(q, ts[0]), ts[1..])
  }

  function Min(a: int, b: int): int { if a < b then a else b }

  /** Offering to a full queue drops the whole burst. */
  lemma {:induction false} OfferAllWhenFull(q: seq<Task>, ts: seq<Task>)
    requires |q| >= Capacity
    ensures OfferAll(q, ts) == q
    decreases |ts|
  {
    if |ts| > 0 {
      OfferAllWhenFull(q, ts[1..]);
    }
  }

  /** Taking the first task of a burst off the front of the rest of it. */
  lemma PrefixAfterHead(ts: seq<Task>, n: nat)
    requires 1 <= n <= |ts|
    ensures [ts[0]] + ts[1..][..n - 1] == ts[..n]
  {
  }

  /** A burst of offers keeps the queue as it was and appends the longest prefix
      of the burst that fits: the tasks accepted are the earliest ones, in order,
      and everything after the first drop is dropped too. */
  lemma {:induction false} OfferAllAcceptsPrefix(q: seq<Task>, ts: seq<Task>)
    requires |q| <= Capacity
    ensures OfferAll(q, ts) == q + ts[..Min(|ts|, Capacity - |q|)]
    decreases |ts|
  {
    if |ts| == 0 {
    } else if |q| == Capacity {
      OfferAllWhenFull(q, ts);
    } else {
      var n := Min(|ts|, Capacity - |q|);
      var q' := q + [ts[0]];
      var tail := ts[1..][..n - 1];
      OfferAllAcceptsPrefix(q', ts[1..]);
      PrefixAfterHead(ts, n);
      assert OfferAll(q, ts) == q' + tail;
      assert q' + tail == q + ([ts[0]] + tail);
    }
  }
}
