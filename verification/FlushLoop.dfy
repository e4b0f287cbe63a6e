/**
 Persistence of the raw feed: the bridge's drop-oldest forwarding, and the writer that drains the queue
 into a buffer and flushes it in batches. The two run concurrently: any number of the bridge's atomic
 steps may fall before each pop of the writer. A flush is all or nothing and may fail at any time.
 */
module FlushLoop {
  import opened Wrappers
  import opened Queues

  const MAX_ITEMS: nat := 512

  /** The flushed items in the order in which they were written. */
  function Flat<T>(batches: History<seq<T>>): seq<T> {
    match batches case Start => [] case Then(before, batch) => Flat(before) + batch
  }

  predicate BatchesWithin<T>(batches: History<seq<T>>, limit: nat) {
    batches.Then? ==> 0 < |batches.last| <= limit && BatchesWithin(batches.before, limit)
  }

  /** Since `start` only full batches were written. */
  predicate FullSince<T(==)>(batches: History<seq<T>>, start: History<seq<T>>) {
    batches == start || (batches.Then? && |batches.last| == 512 && FullSince(batches.before, start))
  }

  // ---- Items taken from a sequence, each at most once and in its order ----

  ghost predicate Picks<T>(at: seq<nat>, s: seq<T>, t: seq<T>) {
    && |at| == |s| && (forall i :: 0 <= i < |s| ==> at[i] < |t| && s[i] == t[at[i]])
    && (forall i, j :: 0 <= i < j < |s| ==> at[i] < at[j])
  }

  ghost predicate InOrder<T>(s: seq<T>, t: seq<T>) { exists at :: Picks(at, s, t) }

  lemma InOrderAppend<T>(s: seq<T>, t: seq<T>, x: T)
    requires InOrder(s, t)
    ensures InOrder(s + [x], t + [x])
  {
    var at: seq<nat> :| Picks(at, s, t);
    assert Picks(at + [|t|], s + [x], t + [x]);
  }

  lemma InOrderWithout<T>(s: seq<T>, i: nat, t: seq<T>)
    requires InOrder(s, t) && i < |s|
    ensures InOrder(s[..i] + s[i + 1..], t)
  {
    var at: seq<nat> :| Picks(at, s, t);
    assert Picks(at[..i] + at[i + 1..], s[..i] + s[i + 1..], t);
  }

  lemma InOrderPrefix<T>(s: seq<T>, more: seq<T>, t: seq<T>, later: seq<T>)
    requires InOrder(s + more, t)
    ensures InOrder(s, t + later)
  {
    var at: seq<nat> :| Picks(at, s + more, t);
    assert forall i :: 0 <= i < |s| ==> (s + more)[i] == s[i];
    assert Picks(at[..|s|], s, t + later);
  }

  lemma BothInOrder<T>(flat: seq<T>, buffer: seq<T>, held: seq<T>, t: seq<T>, later: seq<T>)
    requires InOrder(flat + buffer + held, t)
    ensures InOrder(flat, t + later) && InOrder(flat + buffer, t + later)
  {
    assert flat + buffer + held == flat + (buffer + held);
    InOrderPrefix(flat, buffer + held, t, later);
    InOrderPrefix(flat + buffer, held, t, later);
  }

  lemma DropsFirst<T>(popped: seq<T>, items: seq<T>, held: seq<T>)
    requires items != []
    ensures var kept := popped + items + held;
            |popped| < |kept| && popped + items[1..] + held == kept[..|popped|] + kept[|popped| + 1..]
  {
  }

  lemma AddsLast<T>(popped: seq<T>, items: seq<T>, x: T)
    ensures popped + (items + [x]) + [] == popped + items + [] + [x] == popped + items + [x]
  {
  }

  lemma TakesFirst<T>(s: seq<T>, t: seq<T>)
    requires t != []
    ensures s + [t[0]] + t[1..] == s + t
  {
  }

  // Between its three operations on the queue the bridge holds the item that was refused.
  datatype Bridge<T> = Ready | Refused(item: T) | Retrying(item: T) {
    function Held(): seq<T> { if Ready? then [] else [item] }
  }

  class RedisWriter<T> {
    const queue: ArrayQueue<T>
    var inbox: seq<T>
    var bridge: Bridge<T>
    var buffer: seq<T>
    // History: what the bridge received, what it dropped, what the writer took, and the batches written.
    ghost var received: seq<T>
    ghost var dropped: nat
    ghost var popped: seq<T>
    ghost var batches: History<seq<T>>

    // What was received and not dropped, in the order of the queue.
    ghost function Kept(): seq<T>
      reads this, queue
    {
      popped + queue.items + bridge.Held()
    }

    // What the writer may still take.
    ghost function Coming(): nat
      reads this, queue
    {
      |inbox| + |bridge.Held()| + |queue.items|
    }

    /**
     What was flushed followed by the buffer is exactly what was taken from the queue; what was taken, is
     queued or is held are the items received and not dropped, in the order in which they came.
     */
    ghost predicate Valid()
      reads this, queue
    {
      && queue.Valid() && (bridge.Retrying? ==> |queue.items| < queue.capacity)
      && Flat(batches) + buffer == popped
      && InOrder(Kept(), received) && |received| == dropped + |Kept()|
      && (dropped == 0 ==> received == Kept())
    }

    constructor (capacity: nat, arrivals: seq<T>)
      requires capacity > 0
      ensures Valid() && fresh(queue) && queue.capacity == capacity && queue.items == []
      ensures inbox == arrivals && bridge.Ready? && buffer == [] && received == [] && dropped == 0 && popped == []
      ensures batches == Start
    {
      queue := new ArrayQueue(capacity);
      inbox, bridge := arrivals, Ready;
      buffer, received, dropped, popped, batches := [], [], 0, [], Start;
      new;
      assert Picks([], Kept(), received);
    }

    /** The writer's side of the state, which the bridge never touches. */
    ghost function Written(): (seq<T>, seq<T>, History<seq<T>>)
      reads this
    {
      (buffer, popped, batches)
    }

    // The push of the next arrival.
    method Offer()
      requires Valid() && bridge.Ready? && inbox != []
      modifies this, queue
      ensures Valid() && Written() == old(Written()) && received + inbox == old(received + inbox)
      ensures Coming() == old(Coming()) && dropped == old(dropped) && inbox == old(inbox)[1..]
      ensures if |old(queue.items)| == queue.capacity
              then bridge == Refused(old(inbox)[0]) && queue.items == old(queue.items)
              else bridge == Ready && queue.items == old(queue.items) + [old(inbox)[0]]
    {
      ghost var kept, items := Kept(), queue.items;
      var x := inbox[0];
      inbox := inbox[1..];
      var ok := queue.Push(x);
      bridge := if ok then Ready else Refused(x);
      AddsLast(popped, items, x);
      TakesFirst(received, old(inbox));
      assert Kept() == kept + [x];
      InOrderAppend(kept, received, x);
      received := received + [x];
    }

    // The pop after a refused push: it takes what is then the oldest item, if the writer has left one.
    method DropOne()
      requires Valid() && bridge.Refused?
      modifies this, queue
      ensures Valid() && Written() == old(Written()) && received == old(received) && inbox == old(inbox)
      ensures Coming() <= old(Coming()) && bridge == Retrying(old(bridge).item)
      ensures queue.items == if old(queue.items) == [] then [] else old(queue.items)[1..]
      ensures dropped == old(dropped) + (if old(queue.items) == [] then 0 else 1)
    {
      ghost var kept, items := Kept(), queue.items;
      var oldest := queue.Pop();
      bridge := Retrying(bridge.item);
      if oldest.Some? {
        dropped := dropped + 1;
        DropsFirst(popped, items, bridge.Held());
        InOrderWithout(kept, |popped|, received);
      } else {
        assert Kept() == kept;
      }
    }

    // The second push, which finds room: only the writer has touched the queue since the pop.
    method Retry()
      requires Valid() && bridge.Retrying?
      modifies this, queue
      ensures Valid() && Written() == old(Written()) && received == old(received) && inbox == old(inbox)
      ensures Coming() == old(Coming()) && dropped == old(dropped) && bridge == Ready
      ensures queue.items == old(queue.items) + [old(bridge).item]
    {
      ghost var kept := Kept();
      var _ := queue.Push(bridge.item);
      bridge := Ready;
      assert Kept() == kept;
    }

    /** One operation of the bridge on the queue. */
    method BridgeStep()
      requires Valid()
      modifies this, queue
      ensures Valid() && Written() == old(Written()) && received + inbox == old(received + inbox)
      ensures Coming() <= old(Coming()) && dropped >= old(dropped)
    {
      match bridge
      case Ready => if inbox != [] { Offer(); }
      case Refused(_) => DropOne();
      case Retrying(_) => Retry();
    }

    method BridgeSteps(n: nat)
      requires Valid()
      modifies this, queue
      ensures Valid() && Written() == old(Written()) && received + inbox == old(received + inbox)
      ensures Coming() <= old(Coming()) && dropped >= old(dropped)
      ensures n == 0 ==> queue.items == old(queue.items) && bridge == old(bridge)
    {
      for i := 0 to n
        invariant Valid() && Written() == old(Written()) && received + inbox == old(received + inbox)
        invariant Coming() <= old(Coming()) && dropped >= old(dropped)
        invariant i == 0 ==> queue.items == old(queue.items) && bridge == old(bridge)
      {
        BridgeStep();
      }
    }

    /** The bridge's loop body when nothing comes in between. */
    method Forward()
      requires Valid() && bridge.Ready? && inbox != []
      modifies this, queue
      ensures Valid() && Written() == old(Written()) && received + inbox == old(received + inbox)
      ensures bridge.Ready? && inbox == old(inbox)[1..]
      ensures queue.items == DropOldest(old(queue.items), old(inbox)[0], queue.capacity)
      ensures dropped == old(dropped) + (if |old(queue.items)| == queue.capacity then 1 else 0)
    {
      Offer();
      if bridge.Refused? {
        DropOne();
        Retry();
      }
    }

    /** One pop of the writer, after `steps` operations of the bridge. */
    method Take(steps: nat) returns (item: Option<T>)
      requires Valid()
      modifies this, queue
      ensures Valid() && received + inbox == old(received + inbox) && dropped >= old(dropped)
      ensures buffer == old(buffer) + (if item.Some? then [item.value] else [])
      ensures popped == old(popped) + (if item.Some? then [item.value] else [])
      ensures batches == old(batches)
      ensures if item.Some? then Coming() < old(Coming()) else queue.items == [] && Coming() <= old(Coming())
      ensures steps == 0 ==> Kept() == old(Kept()) && bridge == old(bridge)
    {
      BridgeSteps(steps);
      item := PopOne();
    }

    method PopOne() returns (item: Option<T>)
      requires Valid()
      modifies this, queue
      ensures Valid() && received == old(received) && inbox == old(inbox) && dropped == old(dropped) && bridge == old(bridge)
      ensures buffer == old(buffer) + (if item.Some? then [item.value] else [])
      ensures popped == old(popped) + (if item.Some? then [item.value] else [])
      ensures batches == old(batches) && Kept() == old(Kept())
      ensures if item.Some? then Coming() < old(Coming()) else queue.items == [] && Coming() == old(Coming())
    {
      ghost var kept := Kept();
      ghost var items := queue.items;
      item := queue.Pop();
      if item.Some? {
        buffer := buffer + [item.value];
        popped := popped + [item.value];
        assert items == [item.value] + queue.items;
        assert Kept() == kept;
      }
    }

    /** Everything or nothing. */
    method Flush(succeeds: bool) returns (ok: bool)
      requires Valid()
      modifies this
      ensures Valid() && ok == succeeds
      ensures buffer == if ok then [] else old(buffer)
      ensures batches == if ok then Then(old(batches), old(buffer)) else old(batches)
      ensures popped == old(popped) && received == old(received) && dropped == old(dropped)
      ensures bridge == old(bridge) && inbox == old(inbox)
    {
      ok := succeeds;
      if ok {
        batches := Then(batches, buffer);
        buffer := [];
      }
    }

    /** One tick of the writer: the buffer is filled up to its limit and flushed; `bridging(n)` steps precede the n-th pop. */
    method Tick(succeeds: bool, bridging: nat -> nat)
      requires Valid() && |buffer| <= MAX_ITEMS && BatchesWithin(batches, MAX_ITEMS)
      modifies this, queue
      ensures Valid() && |buffer| <= 512 && BatchesWithin(batches, 512)
      ensures received + inbox == old(received + inbox) && dropped >= old(dropped)
      ensures queue.items == [] || |popped| == |old(popped)| + MAX_ITEMS - |old(buffer)|
      ensures succeeds ==> buffer == [] && Flat(batches) == popped
      ensures (forall n :: bridging(n) == 0) ==> Kept() == old(Kept())
    {
      var pops: nat := 0;
      while |buffer| < MAX_ITEMS
        invariant Valid() && |buffer| <= MAX_ITEMS && batches == old(batches)
        invariant received + inbox == old(received + inbox) && dropped >= old(dropped)
        invariant |popped| - |buffer| == |old(popped)| - |old(buffer)|
        invariant (forall n :: bridging(n) == 0) ==> Kept() == old(Kept())
        decreases MAX_ITEMS - |buffer|
      {
        var item := Take(bridging(pops));
        pops := pops + 1;
        if item.None? { break; }
      }
      if buffer != [] { var _ := Flush(succeeds); }
    }

    /**
     Shutdown drains the queue, flushing each time the buffer has reached its limit, and flushes what is
     left. `outcome(n)` tells whether the n-th flush succeeds. Nothing is lost or written twice however the
     flushes fail; a final flush that succeeds leaves nothing behind but what the bridge still holds.
     */
    method Shutdown(outcome: nat -> bool, bridging: nat -> nat) returns (finalOk: bool)
      requires Valid()
      modifies this, queue
      ensures Valid() && queue.items == []
      ensures received + inbox == old(received + inbox) && dropped >= old(dropped)
      ensures finalOk <==> buffer == []
      ensures finalOk ==> Flat(batches) == popped
      // When every flush succeeds the batches are full but for the last one, and nothing stays behind.
      ensures (forall n :: outcome(n)) && old(|buffer|) < 512 ==>
                finalOk && (FullSince(batches, old(batches)) ||
                            (batches.Then? && 0 < |batches.last| < 512 && FullSince(batches.before, old(batches))))
      ensures (forall n :: bridging(n) == 0) ==> Kept() == old(Kept())
    {
      var attempts: nat, pops: nat, draining := 0, 0, true;
      while draining
        invariant Valid() && (!draining ==> queue.items == [])
        invariant received + inbox == old(received + inbox) && dropped >= old(dropped)
        invariant (forall n :: outcome(n)) && old(|buffer|) < 512 ==> |buffer| < 512 && FullSince(batches, old(batches))
        invariant (forall n :: bridging(n) == 0) ==> Kept() == old(Kept())
        decreases Coming(), draining
      {
        var item := Take(bridging(pops));
        pops := pops + 1;
        draining := item.Some?;
        if draining && |buffer| >= MAX_ITEMS {
          var _ := Flush(outcome(attempts));
          attempts := attempts + 1;
        }
      }
      finalOk := true;
      if buffer != [] { finalOk := Flush(outcome(attempts)); }
    }

    /**
     The whole life of the writer: `rounds` ticks and then the shutdown, with the bridge at work all the
     while. What is written is always an in-order part of what arrived, each item at most once, and the
     rest is accounted for. Exactly what arrived has been written if and only if the bridge never dropped and
     had forwarded everything before the writer's last pop, and the final flush succeeds.
     */
    method Run(rounds: nat, ticks: nat -> bool, outcome: nat -> bool, bridging: (nat, nat) -> nat) returns (finalOk: bool)
      requires Valid() && buffer == [] && received == [] && batches == Start && bridge.Ready?
      modifies this, queue
      ensures Valid() && queue.items == [] && received + inbox == old(inbox)
      ensures finalOk <==> buffer == []
      ensures InOrder(Flat(batches), old(inbox)) && InOrder(Flat(batches) + buffer, old(inbox))
      ensures |old(inbox)| == |Flat(batches)| + |buffer| + dropped + |bridge.Held()| + |inbox|
      ensures Flat(batches) == old(inbox) <==> finalOk && dropped == 0 && bridge.Ready? && inbox == []
    {
      for round := 0 to rounds
        invariant Valid() && |buffer| <= MAX_ITEMS && BatchesWithin(batches, MAX_ITEMS)
        invariant received + inbox == old(inbox)
      {
        Tick(ticks(round), n => bridging(round, n));
      }
      finalOk := Shutdown(outcome, n => bridging(rounds, n));
      assert Kept() == Flat(batches) + buffer + bridge.Held();
      BothInOrder(Flat(batches), buffer, bridge.Held(), received, inbox);
    }
  }
}
