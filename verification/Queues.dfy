/**
 The bounded queues as objects used by one caller at a time: the drop-oldest push, the refusing push,
 the pop and the batch loop, each with the counters it keeps.
 */
module Queues {
  import opened Wrappers

  /** A drop-oldest push: the new item goes in last, and the oldest goes out when there is no room. */
  function DropOldest<T>(queue: seq<T>, x: T, capacity: nat): seq<T>
    requires capacity > 0
  {
    (if |queue| < capacity then queue else queue[1..]) + [x]
  }

  /** A run of drop-oldest pushes. */
  function DropOldestAll<T>(queue: seq<T>, xs: seq<T>, capacity: nat): seq<T>
    requires capacity > 0
  {
    if xs == [] then queue else DropOldest(DropOldestAll(queue, xs[..|xs| - 1], capacity), xs[|xs| - 1], capacity)
  }

  lemma DropOldestOneMore<T>(queue: seq<T>, xs: seq<T>, x: T, capacity: nat)
    requires capacity > 0
    ensures DropOldestAll(queue, xs + [x], capacity) == DropOldest(DropOldestAll(queue, xs, capacity), x, capacity)
  {
    assert (xs + [x])[..|xs|] == xs;
  }

  /** Any number of drop-oldest pushes leaves the newest `capacity` items of what was there and what came. */
  lemma {:induction false} DropOldestKeepsNewest<T>(queue: seq<T>, xs: seq<T>, capacity: nat)
    requires 0 < capacity && |queue| <= capacity
    ensures var all := queue + xs;
            DropOldestAll(queue, xs, capacity) == all[if |all| <= capacity then 0 else |all| - capacity..]
  {
    var all := queue + xs;
    if xs == [] {
      assert all == queue;
    } else {
      var before := queue + xs[..|xs| - 1];
      DropOldestKeepsNewest(queue, xs[..|xs| - 1], capacity);
      assert all == before + [xs[|xs| - 1]];
    }
  }

  // crossbeam's ArrayQueue: each operation is atomic, and a push on a full queue is refused.
  class ArrayQueue<T> {
    const capacity: nat
    var items: seq<T>

    ghost predicate Valid() reads this { 0 < capacity && |items| <= capacity }

    constructor (capacity: nat)
      requires capacity > 0
      ensures Valid() && items == [] && this.capacity == capacity
    {
      this.capacity := capacity;
      items := [];
    }

    method Push(x: T) returns (ok: bool)
      requires Valid()
      modifies this
      ensures Valid()
      ensures ok <==> |old(items)| < capacity
      ensures items == if ok then old(items) + [x] else old(items)
    {
      ok := |items| < capacity;
      if ok { items := items + [x]; }
    }

    method Pop() returns (r: Option<T>)
      requires Valid()
      modifies this
      ensures Valid()
      ensures r == if old(items) == [] then None else Some(old(items)[0])
      ensures items == if old(items) == [] then [] else old(items)[1..]
    {
      if items == [] { return None; }
      r := Some(items[0]);
      items := items[1..];
    }
  }

  class MarketPipeline<T> {
    const queue: ArrayQueue<T>
    var pushCount: nat
    var enqueueCount: nat
    var dropCount: nat
    var popCount: nat
    ghost var refused: nat

    // Every push was queued or refused, and every queued item is still there, popped or dropped.
    ghost predicate Valid()
      reads this, queue
    {
      && queue.Valid()
      && pushCount == enqueueCount + refused
      && enqueueCount == popCount + dropCount + |queue.items|
    }

    constructor (capacity: nat)
      requires capacity > 0
      ensures Valid() && fresh(queue) && queue.capacity == capacity && queue.items == []
      ensures pushCount == enqueueCount == dropCount == popCount == refused == 0
    {
      queue := new ArrayQueue(capacity);
      pushCount, enqueueCount, dropCount, popCount, refused := 0, 0, 0, 0, 0;
    }

    method Push(update: T)
      requires Valid()
      modifies this, queue
      ensures Valid()
      ensures queue.items == DropOldest(old(queue.items), update, queue.capacity)
      ensures dropCount == old(dropCount) + (if |old(queue.items)| == queue.capacity then 1 else 0)
      ensures popCount == old(popCount) && refused == old(refused) && pushCount == old(pushCount) + 1
    {
      pushCount := pushCount + 1;
      var ok := queue.Push(update);
      if !ok {
        var _ := queue.Pop();
        var again := queue.Push(update);
        if again { enqueueCount := enqueueCount + 1; }
        dropCount := dropCount + 1;
      } else {
        enqueueCount := enqueueCount + 1;
      }
    }

    method TryPush(update: T) returns (r: Result<(), T>)
      requires Valid()
      modifies this, queue
      ensures Valid()
      ensures r == if |old(queue.items)| < queue.capacity then Ok(()) else Err(update)
      ensures queue.items == old(queue.items) + (if r.Ok? then [update] else [])
      ensures popCount == old(popCount) && dropCount == old(dropCount)
      ensures refused == old(refused) + (if r.Ok? then 0 else 1) && pushCount == old(pushCount) + 1
    {
      pushCount := pushCount + 1;
      var ok := queue.Push(update);
      if ok {
        enqueueCount := enqueueCount + 1;
        return Ok(());
      }
      refused := refused + 1;
      r := Err(update);
    }

    method Pop() returns (r: Option<T>)
      requires Valid()
      modifies this, queue
      ensures Valid()
      ensures r == if old(queue.items) == [] then None else Some(old(queue.items)[0])
      ensures queue.items == if r.None? then [] else old(queue.items)[1..]
      ensures popCount == old(popCount) + (if r.Some? then 1 else 0)
      ensures pushCount == old(pushCount) && refused == old(refused) && dropCount == old(dropCount)
    {
      r := queue.Pop();
      if r.Some? { popCount := popCount + 1; }
    }

    /** The batch is the front of the queue, in order: everything, or the first `maxBatch`. */
    method PopBatch(maxBatch: nat) returns (batch: seq<T>)
      requires Valid()
      modifies this, queue
      ensures Valid()
      ensures batch + queue.items == old(queue.items)
      ensures |batch| == maxBatch || (|batch| < maxBatch && queue.items == [])
      ensures pushCount == old(pushCount) && refused == old(refused) && dropCount == old(dropCount)
    {
      batch := [];
      for i := 0 to maxBatch
        invariant Valid() && |batch| == i
        invariant batch + queue.items == old(queue.items)
        invariant pushCount == old(pushCount) && refused == old(refused) && dropCount == old(dropCount)
      {
        var r := Pop();
        match r
        case Some(update) => batch := batch + [update];
        case None => break;
      }
    }
  }

  // The opportunity queue counts the drop before the retry and has no enqueue counter.
  class OpportunityQueue<T> {
    const queue: ArrayQueue<T>
    var pushCount: nat
    var dropCount: nat
    var popCount: nat

    ghost predicate Valid()
      reads this, queue
    {
      queue.Valid() && pushCount == popCount + dropCount + |queue.items|
    }

    constructor (capacity: nat)
      requires capacity > 0
      ensures Valid() && fresh(queue) && queue.capacity == capacity && queue.items == []
      ensures pushCount == dropCount == popCount == 0
    {
      queue := new ArrayQueue(capacity);
      pushCount, dropCount, popCount := 0, 0, 0;
    }

    method Push(opportunity: T)
      requires Valid()
      modifies this, queue
      ensures Valid()
      ensures queue.items == DropOldest(old(queue.items), opportunity, queue.capacity)
      ensures dropCount == old(dropCount) + (if |old(queue.items)| == queue.capacity then 1 else 0)
      ensures popCount == old(popCount)
    {
      pushCount := pushCount + 1;
      var ok := queue.Push(opportunity);
      if !ok {
        var _ := queue.Pop();
        dropCount := dropCount + 1;
        var _ := queue.Push(opportunity);
      }
    }

    method Pop() returns (r: Option<T>)
      requires Valid()
      modifies this, queue
      ensures Valid()
      ensures r == if old(queue.items) == [] then None else Some(old(queue.items)[0])
      ensures queue.items == if r.None? then [] else old(queue.items)[1..]
      ensures popCount == old(popCount) + (if r.Some? then 1 else 0) && dropCount == old(dropCount)
    {
      r := queue.Pop();
      if r.Some? { popCount := popCount + 1; }
    }
  }
}
