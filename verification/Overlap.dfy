/**
 What overlapping pushes and pops cost: over all interleavings of one producer and one consumer, a drained
 store shows the last `capacity` pushes as a feed that loses nothing would, if and only if the queue has
 room for one item only.
 */
module Overlap {
  import opened Wrappers
  import opened Pipeline
  import opened MarketStore
  import opened Freshness

  ghost predicate OneOfEachAll(events: seq<Event>) { forall e :: e in events ==> OneOfEach(e) }

  /** Some interleaving of one producer and one consumer leads there. */
  ghost predicate Reachable(style: Style, capacity: nat, s: State) {
    exists events: seq<Event> :: OneOfEachAll(events) && Run(Initial(style, capacity, 2), events) == s
  }

  lemma StartIsReachable(style: Style, capacity: nat)
    ensures Reachable(style, capacity, Initial(style, capacity, 2))
  {
    assert OneOfEachAll([]) && Run(Initial(style, capacity, 2), []) == Initial(style, capacity, 2);
  }

  lemma StepIsReachable(style: Style, capacity: nat, s: State, e: Event)
    requires Reachable(style, capacity, s) && OneOfEach(e)
    ensures Reachable(style, capacity, Apply(s, e))
  {
    var events :| OneOfEachAll(events) && Run(Initial(style, capacity, 2), events) == s;
    var more := events + [e];
    assert more[..|more| - 1] == events;
    assert OneOfEachAll(more) && Run(Initial(style, capacity, 2), more) == Apply(s, e);
  }

  // ---- A lost item stays lost ----

  predicate Bears(pc: Pc, n: nat) { (Carries(pc) || pc.Popped? || pc.Holding?) && pc.item == n }

  /** Push `n` is neither queued nor with a thread nor delivered. */
  ghost predicate Gone(s: State, n: nat) {
    && n < s.shared.counters.push && n !in s.shared.queue && !Has(s.shared.delivered, n)
    && forall t :: 0 <= t < |s.procs| ==> !Bears(s.procs[t], n)
  }

  lemma StepKeepsGone(s: State, e: Event, n: nat)
    requires Gone(s, n)
    ensures Gone(Apply(s, e), n)
  {
    if e.thread < |s.procs| {
      assert !Bears(s.procs[e.thread], n);
      if s.shared.queue != [] { assert s.shared.queue[0] in s.shared.queue; }
    }
  }

  /** How many steps a thread is from having finished. */
  function Rank(pc: Pc): nat {
    match pc
    case Idle => 0
    case Trying(_) => 6
    case Evicting(_) => 5
    case CountDropThenRetry(_) => 4
    case Retrying(_) => 3
    case CountEnqueue(_) => 2
    case CountDrop => 1
    case Popped(_) => 2
    case Holding(_) => 1
  }

  lemma AdvanceLowersRank(m: Shared, pc: Pc)
    requires pc != Idle
    ensures var (m', pc') := Step(m, pc, Advance);
            && Rank(pc') < Rank(pc) && m'.counters.push == m.counters.push
            && (pc.Popped? || pc.Holding? ==> m'.queue == m.queue && (pc' == Idle || pc'.Holding?))
  {
  }

  ghost predicate LostAt(style: Style, capacity: nat, s: State, n: nat) {
    Reachable(style, capacity, s) && Gone(s, n) && |s.procs| == 2
  }

  lemma StepKeepsLost(style: Style, capacity: nat, s: State, e: Event, n: nat)
    requires LostAt(style, capacity, s, n) && OneOfEach(e)
    ensures LostAt(style, capacity, Apply(s, e), n)
  {
    StepIsReachable(style, capacity, s, e);
    StepKeepsGone(s, e, n);
  }

  /** A thread left to itself finishes. */
  lemma {:induction false} Finish(style: Style, capacity: nat, s: State, t: nat, n: nat) returns (s': State)
    requires LostAt(style, capacity, s, n) && t < 2
    ensures LostAt(style, capacity, s', n) && s'.procs == s.procs[t := Idle]
    ensures s'.shared.counters.push == s.shared.counters.push
    ensures s.procs[t].Popped? || s.procs[t].Holding? || s.procs[t].Idle? ==> s'.shared.queue == s.shared.queue
    decreases Rank(s.procs[t])
  {
    if s.procs[t] == Idle {
      s' := s;
      assert s.procs[t := Idle] == s.procs;
    } else {
      AdvanceLowersRank(s.shared, s.procs[t]);
      StepKeepsLost(style, capacity, s, Event(t, Advance), n);
      s' := Finish(style, capacity, Apply(s, Event(t, Advance)), t, n);
    }
  }

  /** With no operation in flight the consumer can pop everything. */
  lemma {:induction false} Drain(style: Style, capacity: nat, s: State, n: nat) returns (s': State)
    requires LostAt(style, capacity, s, n) && s.procs == [Idle, Idle]
    ensures LostAt(style, capacity, s', n) && Drained(s') && s'.shared.counters.push == s.shared.counters.push
    decreases |s.shared.queue|
  {
    if s.shared.queue == [] {
      s' := s;
    } else {
      var popping := Apply(s, Event(CONSUMER, StartPop));
      StepKeepsLost(style, capacity, s, Event(CONSUMER, StartPop), n);
      assert popping.procs == [Idle, Popped(s.shared.queue[0])];
      s' := Finish(style, capacity, popping, CONSUMER, n);
      assert s'.procs == [Idle, Idle];
      s' := Drain(style, capacity, s', n);
    }
  }

  // ---- The overlapped push ----

  function Pushes(k: nat): History<Op> { if k == 0 then Start else Then(Pushes(k - 1), PushOp) }

  ghost predicate FilledTo(s: State, capacity: nat, k: nat) {
    && s.procs == [Idle, Idle] && s.shared.capacity == capacity
    && |s.shared.queue| == k == s.shared.counters.push && s.shared.delivered == History.Start
    && forall i :: 0 <= i < k ==> s.shared.queue[i] == i
  }

  lemma OnePushFills(s: State, capacity: nat, k: nat)
    requires FilledTo(s, capacity, k) && k < capacity
    ensures FilledTo(WholeOp(s, PushOp), capacity, k + 1)
  {
    WholePushIsDropOldest(s);
  }

  lemma {:induction false} FillingPushes(style: Style, capacity: nat, k: nat)
    requires k <= capacity
    ensures FilledTo(RunOps(Initial(style, capacity, 2), Pushes(k)), capacity, k)
  {
    if k == 0 {
      assert Initial(style, capacity, 2).procs == [Idle, Idle];
    } else {
      FillingPushes(style, capacity, k - 1);
      OnePushFills(RunOps(Initial(style, capacity, 2), Pushes(k - 1)), capacity, k - 1);
    }
  }

  lemma PushIsReachable(style: Style, capacity: nat, s: State)
    requires Reachable(style, capacity, s)
    ensures Reachable(style, capacity, WholeOp(s, PushOp))
  {
    var go := Event(PRODUCER, Advance);
    var s1 := Apply(s, Event(PRODUCER, StartPush));
    StepIsReachable(style, capacity, s, Event(PRODUCER, StartPush));
    StepIsReachable(style, capacity, s1, go);
    StepIsReachable(style, capacity, Apply(s1, go), go);
    var s3 := Apply(Apply(s1, go), go);
    StepIsReachable(style, capacity, s3, go);
    StepIsReachable(style, capacity, Apply(s3, go), go);
    StepIsReachable(style, capacity, Apply(Apply(s3, go), go), go);
  }

  lemma {:induction false} FillingIsReachable(style: Style, capacity: nat, k: nat)
    ensures Reachable(style, capacity, RunOps(Initial(style, capacity, 2), Pushes(k)))
  {
    if k == 0 {
      StartIsReachable(style, capacity);
    } else {
      FillingIsReachable(style, capacity, k - 1);
      PushIsReachable(style, capacity, RunOps(Initial(style, capacity, 2), Pushes(k - 1)));
    }
  }

  /**
   A pop between the producer's failed attempt on a full queue and its eviction makes the eviction take
   the second oldest item.
   */
  lemma OverlapEvictsSecond(s: State) returns (waiting: State, evicted: State)
    requires s.procs == [Idle, Idle] && |s.shared.queue| == s.shared.capacity >= 2
    ensures waiting == Apply(Apply(Apply(s, Event(PRODUCER, StartPush)), Event(PRODUCER, Advance)), Event(CONSUMER, StartPop))
    ensures evicted == Apply(waiting, Event(PRODUCER, Advance))
    ensures var m, m' := s.shared, evicted.shared;
            && m'.evicted == m.evicted + [m.queue[1]] && m'.queue == m.queue[2..] && m'.delivered == m.delivered
            && m'.counters.push == m.counters.push + 1
            && |evicted.procs| == 2 && Carries(evicted.procs[PRODUCER]) && evicted.procs[PRODUCER].item == m.counters.push
            && evicted.procs[CONSUMER] == Popped(m.queue[0])
  {
    var go, n, m := Event(PRODUCER, Advance), s.shared.counters.push, s.shared;
    var s1 := Apply(s, Event(PRODUCER, StartPush));
    assert s1.procs == [Trying(n), Idle];
    var s2 := Apply(s1, go);
    assert s2.procs == [Evicting(n), Idle] && s2.shared == s1.shared;
    waiting := Apply(s2, Event(CONSUMER, StartPop));
    assert waiting.procs == [Evicting(n), Popped(m.queue[0])] && waiting.shared.queue == m.queue[1..];
    evicted := Apply(waiting, go);
    assert evicted.shared.queue == m.queue[1..][1..] == m.queue[2..];
  }

  /** After `capacity` pushes one overlapped push loses push 1, and it stays lost until the queue is drained. */
  lemma OverlapLosesRecent(style: Style, capacity: nat) returns (s: State)
    requires capacity >= 2
    ensures LostAt(style, capacity, s, 1) && Drained(s) && s.shared.counters.push == capacity + 1
  {
    var full, go := RunOps(Initial(style, capacity, 2), Pushes(capacity)), Event(PRODUCER, Advance);
    FillingPushes(style, capacity, capacity);
    FillingIsReachable(style, capacity, capacity);
    var waiting, evicted := OverlapEvictsSecond(full);
    StepIsReachable(style, capacity, full, Event(PRODUCER, StartPush));
    var s1 := Apply(full, Event(PRODUCER, StartPush));
    StepIsReachable(style, capacity, s1, go);
    StepIsReachable(style, capacity, Apply(s1, go), Event(CONSUMER, StartPop));
    StepIsReachable(style, capacity, waiting, go);
    assert Gone(evicted, 1);
    s := Finish(style, capacity, evicted, PRODUCER, 1);
    s := Finish(style, capacity, s, CONSUMER, 1);
    assert s.procs == [Idle, Idle];
    s := Drain(style, capacity, s, 1);
  }

  // ---- Exactness after a drain ----

  /** Each id whose last push is among the last `capacity` pushes shows what the lossless feed shows. */
  ghost predicate RecentExact(feed: nat -> MarketUpdate, m: Shared) {
    forall last: nat :: Recent(feed, m, last) ==> ShownAsLossless(feed, m, feed(last).symbolId)
  }

  ghost predicate Recent(feed: nat -> MarketUpdate, m: Shared, last: nat) {
    && last < m.counters.push <= last + m.capacity
    && forall n :: last < n < m.counters.push ==> feed(n).symbolId != feed(last).symbolId
  }

  ghost predicate ShownAsLossless(feed: nat -> MarketUpdate, m: Shared, id: nat) {
    Newest(Payload(feed, m.delivered), id) == Newest(Payload(feed, Lossless(m.counters.push)), id)
  }

  /** With an id of its own for each push, a lost push shows. */
  lemma LostShows(style: Style, capacity: nat, s: State, n: nat) returns (feed: nat -> MarketUpdate)
    requires capacity > 0 && LostAt(style, capacity, s, n) && s.shared.counters.push <= n + capacity
    ensures !RecentExact(feed, s.shared)
  {
    feed := (i: nat) => MarketUpdate(i, 1.0, 2.0, 0);
    var events :| OneOfEachAll(events) && Run(Initial(style, capacity, 2), events) == s;
    RunKeepsOrder(style, capacity, events);
    RunKeepsConfig(Initial(style, capacity, 2), events);
    var d, push := s.shared.delivered, s.shared.counters.push;
    var bound: nat := if s.procs[CONSUMER].Popped? || s.procs[CONSUMER].Holding? then s.procs[CONSUMER].item else Head(s);
    SlotShowsNewest(feed, d, bound, n);
    LosslessHasAll(push, n);
    SlotShowsNewest(feed, Lossless(push), push, n);
    assert Recent(feed, s.shared, n);
    assert !ShownAsLossless(feed, s.shared, n);
  }

  lemma SingleSlotIsExact(style: Style, s: State, feed: nat -> MarketUpdate)
    requires Reachable(style, 1, s) && Drained(s)
    ensures RecentExact(feed, s.shared)
  {
    var events :| OneOfEachAll(events) && Run(Initial(style, 1, 2), events) == s;
    RunKeepsConfig(Initial(style, 1, 2), events);
    if s.shared.counters.push > 0 { DrainReflectsLast(feed, style, 1, events); }
  }

  /**
   Every drained run of one producer and one consumer is exact for the last `capacity` pushes, whatever
   the feed, if and only if the capacity is one.
   */
  lemma RecentExactIff(style: Style, capacity: nat)
    requires capacity > 0
    ensures (forall s: State, feed: nat -> MarketUpdate ::
               Reachable(style, capacity, s) && Drained(s) ==> RecentExact(feed, s.shared)) <==> capacity == 1
  {
    if capacity == 1 {
      forall s: State, feed: nat -> MarketUpdate | Reachable(style, capacity, s) && Drained(s)
        ensures RecentExact(feed, s.shared)
      {
        SingleSlotIsExact(style, s, feed);
      }
    } else {
      var s := OverlapLosesRecent(style, capacity);
      var feed := LostShows(style, capacity, s, 1);
    }
  }
}
