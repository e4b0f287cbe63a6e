/**
 The queue with one producer feeding a store: what the store shows against what a feed that loses
 nothing would show, over every interleaving and over runs whose operations do not overlap.
 */
module Freshness {
  import opened Wrappers
  import opened Pipeline
  import opened Queues
  import opened MarketStore

  const PRODUCER: nat := 0
  const CONSUMER: nat := 1

  predicate Carries(pc: Pc) { pc.Trying? || pc.Evicting? || pc.CountDropThenRetry? || pc.Retrying? }

  /** The items that have reached the queue: all pushed ones but the one the producer still carries. */
  function Entered(s: State): int
    requires |s.procs| > 0
  {
    s.shared.counters.push - (if Carries(s.procs[PRODUCER]) then 1 else 0)
  }

  /**
   With a single producer the queue is a contiguous run of push numbers ending with the last item
   that entered it, nothing is lost on a retry, and only older items are ever evicted.
   */
  ghost predicate SuffixQueue(s: State) {
    && |s.procs| > 0 && s.shared.capacity > 0 && |s.shared.queue| <= s.shared.capacity
    && (forall t :: 0 < t < |s.procs| ==> s.procs[t].Idle? || s.procs[t].Popped? || s.procs[t].Holding?)
    && (Carries(s.procs[PRODUCER]) ==> s.procs[PRODUCER].item + 1 == s.shared.counters.push)
    && (s.procs[PRODUCER].Retrying? || s.procs[PRODUCER].CountDropThenRetry? ==> s.shared.Room())
    && |s.shared.queue| <= Entered(s)
    && (forall i :: 0 <= i < |s.shared.queue| ==> s.shared.queue[i] == Entered(s) - |s.shared.queue| + i)
    && s.shared.lost == []
    && (forall n :: n in s.shared.evicted ==> n + 1 < s.shared.counters.push)
  }

  predicate SoleProducer(e: Event) { e.action.StartPush? ==> e.thread == PRODUCER }

  lemma StepKeepsSuffix(s: State, e: Event)
    requires SuffixQueue(s) && SoleProducer(e)
    ensures SuffixQueue(Apply(s, e))
  {
    if e.thread < |s.procs| {
      var s' := Apply(s, e);
      assert forall t :: 0 <= t < |s.procs| && t != e.thread ==> s'.procs[t] == s.procs[t];
    }
  }

  lemma {:induction false} RunKeepsSuffix(style: Style, capacity: nat, threads: nat, events: seq<Event>)
    requires threads > 0 && capacity > 0
    requires forall e :: e in events ==> SoleProducer(e)
    ensures SuffixQueue(Run(Initial(style, capacity, threads), events))
  {
    if events != [] {
      assert forall e :: e in events[..|events| - 1] ==> e in events;
      RunKeepsSuffix(style, capacity, threads, events[..|events| - 1]);
      assert events[|events| - 1] in events;
      StepKeepsSuffix(Run(Initial(style, capacity, threads), events[..|events| - 1]), events[|events| - 1]);
    }
  }

  /**
   With a single producer and no operation in flight the counters bound each other, exactly so when no
   eviction came too late.
   */
  lemma SingleProducerCounters(style: Style, capacity: nat, threads: nat, events: seq<Event>)
    requires threads > 0 && capacity > 0
    requires forall e :: e in events ==> SoleProducer(e)
    requires Quiescent(Run(Initial(style, capacity, threads), events))
    ensures var m := Run(Initial(style, capacity, threads), events).shared;
            var c := m.counters;
            && c.push <= c.pop + c.drop + |m.queue|
            && (c.push == c.pop + c.drop + |m.queue| <==> m.emptyEvicts == 0)
            && (style.CountLast? ==> c.enqueue == c.push)
  {
    QueueConservation(style, capacity, threads, events);
    RunKeepsSuffix(style, capacity, threads, events);
  }

  // ---- One producer, one consumer that applies what it pops to the store ----

  predicate Below(d: History<nat>, bound: nat) { d.Then? ==> d.last < bound && Below(d.before, d.last) }

  predicate Has(d: History<nat>, n: nat) { d.Then? && (d.last == n || Has(d.before, n)) }

  lemma {:induction false} BelowBounds(d: History<nat>, bound: nat, n: nat)
    requires Below(d, bound) && Has(d, n)
    ensures n < bound
  {
    if d.last != n { BelowBounds(d.before, d.last, n); }
  }

  lemma {:induction false} BelowWeakens(d: History<nat>, bound: nat, bound': nat)
    requires Below(d, bound) && bound <= bound'
    ensures Below(d, bound')
  {
  }

  function Head(s: State): int
    requires |s.procs| > 0
  {
    Entered(s) - |s.shared.queue|
  }

  predicate Held(pc: Pc, n: nat) { (pc.Popped? || pc.Holding?) && pc.item == n }

  /** Every item that has left the queue was evicted, is held by the consumer, or was delivered in order. */
  ghost predicate InOrder(s: State) {
    && SuffixQueue(s) && |s.procs| == 2
    && !s.procs[PRODUCER].Popped? && !s.procs[PRODUCER].Holding?
    && (if s.procs[CONSUMER].Popped? || s.procs[CONSUMER].Holding?
        then s.procs[CONSUMER].item < Head(s) && Below(s.shared.delivered, s.procs[CONSUMER].item)
        else Below(s.shared.delivered, Head(s)))
    && forall n: nat :: n < Head(s) ==> n in s.shared.evicted || Held(s.procs[CONSUMER], n) || Has(s.shared.delivered, n)
  }

  predicate OneOfEach(e: Event) {
    && (e.action.StartPush? ==> e.thread == PRODUCER)
    && (e.action.StartPop? ==> e.thread == CONSUMER)
  }

  lemma StepKeepsOrder(s: State, e: Event)
    requires InOrder(s) && OneOfEach(e)
    ensures InOrder(Apply(s, e))
  {
    StepKeepsSuffix(s, e);
    var s' := Apply(s, e);
    if Head(s) >= 0 && s.procs[CONSUMER].Idle? {
      BelowWeakens(s.shared.delivered, Head(s), Head(s) + 1);
    }
    if s.procs[CONSUMER].Holding? && e == Event(CONSUMER, Advance) {
      BelowWeakens(s'.shared.delivered, s.procs[CONSUMER].item + 1, Head(s));
    }
  }

  lemma {:induction false} RunKeepsOrder(style: Style, capacity: nat, events: seq<Event>)
    requires capacity > 0 && forall e :: e in events ==> OneOfEach(e)
    ensures InOrder(Run(Initial(style, capacity, 2), events))
  {
    if events != [] {
      assert forall e :: e in events[..|events| - 1] ==> e in events;
      RunKeepsOrder(style, capacity, events[..|events| - 1]);
      assert events[|events| - 1] in events;
      StepKeepsOrder(Run(Initial(style, capacity, 2), events[..|events| - 1]), events[|events| - 1]);
    }
  }

  /** `feed(n)` is the update pushed as number n; this is what the store has been given. */
  function Payload(feed: nat -> MarketUpdate, d: History<nat>): History<MarketUpdate> {
    match d
    case Start => Start
    case Then(before, n) => Then(Payload(feed, before), feed(n))
  }

  /** The push number of the update a slot shows. */
  function SlotSource(feed: nat -> MarketUpdate, d: History<nat>, id: nat): Option<nat> {
    match d
    case Start => None
    case Then(before, n) => if feed(n).symbolId == id then Some(n) else SlotSource(feed, before, id)
  }

  /** A feed that loses nothing delivers every push in order. */
  function Lossless(pushed: nat): History<nat> {
    if pushed == 0 then Start else Then(Lossless(pushed - 1), pushed - 1)
  }

  /** The slot shows the newest delivered update of its id. */
  lemma {:induction false} SlotShowsNewest(feed: nat -> MarketUpdate, d: History<nat>, bound: nat, id: nat)
    requires Below(d, bound)
    ensures match SlotSource(feed, d, id)
            case None => Newest(Payload(feed, d), id) == None && forall n: nat :: Has(d, n) ==> feed(n).symbolId != id
            case Some(k) =>
              && Newest(Payload(feed, d), id) == Some(feed(k))
              && Has(d, k) && feed(k).symbolId == id
              && forall n: nat :: Has(d, n) && feed(n).symbolId == id ==> n <= k
  {
    if d.Then? {
      SlotShowsNewest(feed, d.before, d.last, id);
      forall n: nat | Has(d, n) ensures n <= d.last {
        if n != d.last { BelowBounds(d.before, d.last, n); }
      }
    }
  }

  predicate NoOlder(before: Option<nat>, after: Option<nat>) {
    before.Some? ==> after.Some? && before.value <= after.value
  }

  /** No step of any interleaving moves a slot to an update pushed earlier than the one it shows. */
  lemma SlotNeverGoesBack(feed: nat -> MarketUpdate, s: State, e: Event, id: nat)
    requires InOrder(s) && OneOfEach(e)
    ensures NoOlder(SlotSource(feed, s.shared.delivered, id), SlotSource(feed, Apply(s, e).shared.delivered, id))
  {
    var before, after := s.shared.delivered, Apply(s, e).shared.delivered;
    if after != before {
      assert after == Then(before, s.procs[CONSUMER].item);
      SlotShowsNewest(feed, before, s.procs[CONSUMER].item, id);
      if SlotSource(feed, before, id).Some? {
        BelowBounds(before, s.procs[CONSUMER].item, SlotSource(feed, before, id).value);
      }
    }
  }

  lemma {:induction false} LosslessHasAll(pushed: nat, n: nat)
    ensures Has(Lossless(pushed), n) <==> n < pushed
    ensures Below(Lossless(pushed), pushed)
  {
    if pushed > 0 { LosslessHasAll(pushed - 1, n); }
  }

  /** An id whose last push was delivered shows what the lossless feed would show. */
  lemma DeliveredIsExact(feed: nat -> MarketUpdate, d: History<nat>, bound: nat, pushed: nat, last: nat)
    requires Below(d, bound) && bound <= pushed && Has(d, last) && last < pushed
    requires forall n :: last < n < pushed ==> feed(n).symbolId != feed(last).symbolId
    ensures var id := feed(last).symbolId;
            Newest(Payload(feed, d), id) == Newest(Payload(feed, Lossless(pushed)), id) == Some(feed(last))
  {
    var id := feed(last).symbolId;
    SlotShowsNewest(feed, d, bound, id);
    var k := SlotSource(feed, d, id).value;
    BelowBounds(d, bound, k);
    LosslessHasAll(pushed, last);
    SlotShowsNewest(feed, Lossless(pushed), pushed, id);
    var j := SlotSource(feed, Lossless(pushed), id).value;
    LosslessHasAll(pushed, j);
  }

  ghost predicate Drained(s: State) { s.shared.queue == [] && forall t :: 0 <= t < |s.procs| ==> s.procs[t] == Idle }

  /**
   In every interleaving, once the queue is drained the last update pushed overall is reflected: its
   slot shows exactly what the lossless feed would show.
   */
  lemma DrainReflectsLast(feed: nat -> MarketUpdate, style: Style, capacity: nat, events: seq<Event>)
    requires capacity > 0 && forall e :: e in events ==> OneOfEach(e)
    requires Drained(Run(Initial(style, capacity, 2), events))
    requires Run(Initial(style, capacity, 2), events).shared.counters.push > 0
    ensures var m := Run(Initial(style, capacity, 2), events).shared;
            var id := feed(m.counters.push - 1).symbolId;
            Newest(Payload(feed, m.delivered), id) ==
            Newest(Payload(feed, Lossless(m.counters.push)), id) == Some(feed(m.counters.push - 1))
  {
    RunKeepsOrder(style, capacity, events);
    var s := Run(Initial(style, capacity, 2), events);
    var last := s.shared.counters.push - 1;
    assert Head(s) == last + 1;
    DeliveredIsExact(feed, s.shared.delivered, Head(s), last + 1, last);
  }

  // ---- Runs whose pushes and pops do not overlap ----

  datatype Op = PushOp | PopOp

  // The longest push takes six steps; the ones that do not apply any more change nothing.
  function WholePush(s: State): State {
    var a := Apply(s, Event(PRODUCER, StartPush));
    var b := Apply(Apply(a, Event(PRODUCER, Advance)), Event(PRODUCER, Advance));
    Apply(Apply(Apply(b, Event(PRODUCER, Advance)), Event(PRODUCER, Advance)), Event(PRODUCER, Advance))
  }

  function WholePop(s: State): State {
    Apply(Apply(Apply(s, Event(CONSUMER, StartPop)), Event(CONSUMER, Advance)), Event(CONSUMER, Advance))
  }

  function WholeOp(s: State, op: Op): State {
    match op case PushOp => WholePush(s) case PopOp => WholePop(s)
  }

  function RunOps(s: State, ops: History<Op>): State {
    match ops
    case Start => s
    case Then(before, op) => WholeOp(RunOps(s, before), op)
  }

  /** A push that runs alone is a drop-oldest push; it evicts the front only when the queue is full. */
  lemma WholePushIsDropOldest(s: State)
    requires |s.procs| == 2 && s.procs == [Idle, Idle] && 0 < s.shared.capacity && |s.shared.queue| <= s.shared.capacity
    ensures var s' := WholePush(s);
            var m, m' := s.shared, s'.shared;
            var full := |m.queue| == m.capacity;
            && s'.procs == [Idle, Idle]
            && m'.queue == DropOldest(m.queue, m.counters.push, m.capacity)
            && m'.evicted == m.evicted + (if full then [m.queue[0]] else [])
            && m'.counters == m.counters.(push := m.counters.push + 1,
                                          enqueue := m.counters.enqueue + (if m.style.CountLast? then 1 else 0),
                                          drop := m.counters.drop + (if full then 1 else 0))
            && m' == m.(queue := m'.queue, evicted := m'.evicted, counters := m'.counters)
  {
    var p := PRODUCER;
    var s1 := Apply(s, Event(p, StartPush));
    assert s1.procs == [Trying(s.shared.counters.push), Idle];
    var s2 := Apply(s1, Event(p, Advance));
    var s3 := Apply(s2, Event(p, Advance));
    var s4 := Apply(s3, Event(p, Advance));
    var s5 := Apply(s4, Event(p, Advance));
    if |s.shared.queue| < s.shared.capacity {
      assert s3.procs == [Idle, Idle] == s4.procs == s5.procs;
    } else {
      assert s2.procs == [Evicting(s.shared.counters.push), Idle];
    }
  }

  /** Nothing among the last `capacity` pushes has been evicted. */
  ghost predicate OnlyOldEvicted(s: State) {
    && InOrder(s) && s.procs == [Idle, Idle]
    && forall n :: n in s.shared.evicted ==> n + s.shared.capacity < s.shared.counters.push
  }

  lemma OpKeepsOnlyOld(s: State, op: Op)
    requires OnlyOldEvicted(s)
    ensures OnlyOldEvicted(WholeOp(s, op)) && WholeOp(s, op).shared.capacity == s.shared.capacity
  {
    match op
    case PushOp =>
      WholePushIsDropOldest(s);
      PushKeepsOrder(s);
    case PopOp =>
      var s1 := Apply(s, Event(CONSUMER, StartPop));
      var s2 := Apply(s1, Event(CONSUMER, Advance));
      StepKeepsOrder(s, Event(CONSUMER, StartPop));
      StepKeepsOrder(s1, Event(CONSUMER, Advance));
      StepKeepsOrder(s2, Event(CONSUMER, Advance));
      if s.shared.queue != [] {
        assert s1.procs == [Idle, Popped(s.shared.queue[0])];
        assert s2.procs == [Idle, Holding(s.shared.queue[0])];
      }
  }

  lemma PushKeepsOrder(s: State)
    requires InOrder(s)
    ensures InOrder(WholePush(s))
  {
    var go := Event(PRODUCER, Advance);
    var a := Apply(s, Event(PRODUCER, StartPush));
    StepKeepsOrder(s, Event(PRODUCER, StartPush));
    StepKeepsOrder(a, go);
    StepKeepsOrder(Apply(a, go), go);
    StepKeepsOrder(Apply(Apply(a, go), go), go);
    StepKeepsOrder(Apply(Apply(Apply(a, go), go), go), go);
    StepKeepsOrder(Apply(Apply(Apply(Apply(a, go), go), go), go), go);
  }

  lemma StartsInOrder(style: Style, capacity: nat)
    requires capacity > 0
    ensures OnlyOldEvicted(Initial(style, capacity, 2))
  {
    assert Initial(style, capacity, 2).procs == [Idle, Idle];
  }

  lemma {:induction false} OpsKeepOnlyOld(style: Style, capacity: nat, ops: History<Op>)
    requires capacity > 0
    ensures OnlyOldEvicted(RunOps(Initial(style, capacity, 2), ops))
    ensures RunOps(Initial(style, capacity, 2), ops).shared.capacity == capacity
  {
    match ops
    case Start => StartsInOrder(style, capacity);
    case Then(before, op) =>
      OpsKeepOnlyOld(style, capacity, before);
      OpKeepsOnlyOld(RunOps(Initial(style, capacity, 2), before), op);
  }

  /**
   When pushes and pops do not overlap, a drained queue leaves every id whose last push is among the
   last `capacity` pushes with exactly the value the lossless feed gives it.
   */
  lemma RecentIdsAreExact(feed: nat -> MarketUpdate, style: Style, capacity: nat, ops: History<Op>, last: nat)
    requires capacity > 0
    requires var m := RunOps(Initial(style, capacity, 2), ops).shared;
             && m.queue == []
             && last < m.counters.push <= last + capacity
             && forall n :: last < n < m.counters.push ==> feed(n).symbolId != feed(last).symbolId
    ensures var m := RunOps(Initial(style, capacity, 2), ops).shared;
            var id := feed(last).symbolId;
            Newest(Payload(feed, m.delivered), id) ==
            Newest(Payload(feed, Lossless(m.counters.push)), id) == Some(feed(last))
  {
    OpsKeepOnlyOld(style, capacity, ops);
    var s := RunOps(Initial(style, capacity, 2), ops);
    assert Head(s) == s.shared.counters.push;
    DeliveredIsExact(feed, s.shared.delivered, Head(s), s.shared.counters.push, last);
  }
}
