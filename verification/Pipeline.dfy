/**
 The bounded drop-oldest queue shared by producers and consumers. `push` and `pop` are sequences of
 atomic operations on the queue and the counters, so producers and consumers are step machines that
 may interleave anywhere. Each pushed item is known by its push number.
 */
module Pipeline {
  import opened Wrappers

  // MarketPipeline and ExecutionPipeline count after the retry and count enqueues;
  // OpportunityQueue counts the drop before the retry and has no enqueue counter.
  datatype Style = CountLast | CountFirst

  datatype Pc =
    | Idle
    | Trying(item: nat)          // counted as pushed, first attempt to come
    | Evicting(item: nat)        // the first attempt found the queue full
    | CountDropThenRetry(item: nat)
    | Retrying(item: nat)
    | CountEnqueue(slow: bool)
    | CountDrop
    | Popped(item: nat)          // taken from the queue, not counted yet
    | Holding(item: nat)         // returned to the consumer, not processed yet

  datatype Action = StartPush | StartPop | Advance

  datatype Event = Event(thread: nat, action: Action)

  datatype Counters = Counters(push: nat, enqueue: nat, drop: nat, pop: nat)

  // What the threads share. The last five fields are history: the fate of each item that is no
  // longer in the queue.
  datatype Shared = Shared(
    style: Style, capacity: nat, queue: seq<nat>, counters: Counters,
    evicted: seq<nat>, lost: seq<nat>, taken: seq<nat>, emptyEvicts: nat, delivered: History<nat>)
  {
    predicate Room() { |queue| < capacity }

    function Insert(n: nat): Shared { this.(queue := queue + [n]) }

    function CountedPush(): Shared { this.(counters := counters.(push := counters.push + 1)) }

    function CountedEnqueue(): Shared { this.(counters := counters.(enqueue := counters.enqueue + 1)) }

    function CountedDrop(): Shared { this.(counters := counters.(drop := counters.drop + 1)) }

    function CountedPop(): Shared { this.(counters := counters.(pop := counters.pop + 1)) }

    // ArrayQueue::pop on the producer's slow path; it finds nothing when consumers were faster.
    function Evict(): Shared {
      if queue == [] then this.(emptyEvicts := emptyEvicts + 1)
      else this.(queue := queue[1..], evicted := evicted + [queue[0]])
    }
  }

  /** One atomic step of a thread; an action that does not apply changes nothing. */
  function Step(m: Shared, pc: Pc, action: Action): (Shared, Pc) {
    var last := m.style.CountLast?;
    match (action, pc)
    case (StartPush, Idle) => (m.CountedPush(), Trying(m.counters.push))
    case (StartPop, Idle) =>
      if m.queue == [] then (m, Idle)
      else (m.(queue := m.queue[1..], taken := m.taken + [m.queue[0]]), Popped(m.queue[0]))
    case (Advance, Trying(n)) =>
      if m.Room() then (m.Insert(n), if last then CountEnqueue(false) else Idle) else (m, Evicting(n))
    case (Advance, Evicting(n)) => (m.Evict(), if last then Retrying(n) else CountDropThenRetry(n))
    case (Advance, CountDropThenRetry(n)) => (m.CountedDrop(), Retrying(n))
    case (Advance, Retrying(n)) =>
      if m.Room() then (m.Insert(n), if last then CountEnqueue(true) else Idle)
      else (m.(lost := m.lost + [n]), if last then CountDrop else Idle)
    case (Advance, CountEnqueue(slow)) => (m.CountedEnqueue(), if slow then CountDrop else Idle)
    case (Advance, CountDrop) => (m.CountedDrop(), Idle)
    case (Advance, Popped(n)) => (m.CountedPop(), Holding(n))
    case (Advance, Holding(n)) => (m.(delivered := Then(m.delivered, n)), Idle)
    case _ => (m, pc)
  }

  datatype State = State(shared: Shared, procs: seq<Pc>)

  function Initial(style: Style, capacity: nat, threads: nat): State {
    State(Shared(style, capacity, [], Counters(0, 0, 0, 0), [], [], [], 0, History.Start), seq(threads, _ => Idle))
  }

  function Apply(s: State, e: Event): State {
    if e.thread >= |s.procs| then s else
    var (shared, pc) := Step(s.shared, s.procs[e.thread], e.action);
    State(shared, s.procs[e.thread := pc])
  }

  function Run(s: State, events: seq<Event>): State {
    if events == [] then s else Apply(Run(s, events[..|events| - 1]), events[|events| - 1])
  }

  // ---- Conservation for any number of producers and consumers ----

  // What a thread in the middle of an operation still owes: an insertion, or a step of a counter.
  datatype Debt = OwesItem | OwesPop | OwesEnqueue | OwesDrop

  function Owes(style: Style, pc: Pc, d: Debt): nat {
    match d
    case OwesItem => if pc.Trying? || pc.Evicting? || pc.CountDropThenRetry? || pc.Retrying? then 1 else 0
    case OwesPop => if pc.Popped? then 1 else 0
    case OwesEnqueue => if pc.CountEnqueue? then 1 else 0
    case OwesDrop =>
      if pc.CountDropThenRetry? || pc.CountDrop? || (pc.CountEnqueue? && pc.slow) || (pc.Retrying? && style.CountLast?)
      then 1 else 0
  }

  /** The debt of the first `n` threads. */
  function Owed(style: Style, procs: seq<Pc>, d: Debt, n: nat): nat
    requires n <= |procs|
  {
    if n == 0 then 0 else Owed(style, procs, d, n - 1) + Owes(style, procs[n - 1], d)
  }

  lemma {:induction false} OwedUpdate(style: Style, procs: seq<Pc>, t: nat, pc: Pc, d: Debt, n: nat)
    requires t < |procs| && n <= |procs|
    ensures Owed(style, procs[t := pc], d, n) + (if t < n then Owes(style, procs[t], d) else 0) ==
            Owed(style, procs, d, n) + (if t < n then Owes(style, pc, d) else 0)
  {
    if n > 0 { OwedUpdate(style, procs, t, pc, d, n - 1); }
  }

  lemma {:induction false} NothingOwed(style: Style, procs: seq<Pc>, d: Debt, n: nat)
    requires n <= |procs| && forall i :: 0 <= i < n ==> procs[i] == Idle
    ensures Owed(style, procs, d, n) == 0
  {
    if n > 0 { NothingOwed(style, procs, d, n - 1); }
  }

  function Left(m: Shared, d: Debt): int {
    match d
    case OwesItem => m.counters.push - (|m.queue| + |m.taken| + |m.evicted| + |m.lost|)
    case OwesPop => |m.taken| - m.counters.pop
    case OwesEnqueue => if m.style.CountLast? then |m.queue| + |m.taken| + |m.evicted| - m.counters.enqueue else 0
    case OwesDrop => |m.evicted| + m.emptyEvicts - m.counters.drop
  }

  // The steps each kind of push can be at.
  predicate Fits(style: Style, pc: Pc) {
    match style
    case CountLast => !pc.CountDropThenRetry?
    case CountFirst => !pc.CountEnqueue? && !pc.CountDrop?
  }

  /**
   The queue never exceeds its capacity; each pushed item is in it, taken, evicted, lost on a retry
   or carried by a producer; and every counter lags its history by exactly what the threads in flight
   still owe it.
   */
  ghost predicate Conserved(s: State) {
    && |s.shared.queue| <= s.shared.capacity
    && (forall d: Debt :: Left(s.shared, d) == Owed(s.shared.style, s.procs, d, |s.procs|))
    && (forall t :: 0 <= t < |s.procs| ==> Fits(s.shared.style, s.procs[t]))
  }

  /** Every step moves what is left of each balance by exactly what its thread's debt changes. */
  lemma StepShifts(m: Shared, pc: Pc, action: Action, d: Debt)
    requires Fits(m.style, pc)
    ensures var (m', pc') := Step(m, pc, action);
            && Left(m', d) - Left(m, d) == Owes(m.style, pc', d) - Owes(m.style, pc, d)
            && Fits(m.style, pc') && m'.style == m.style && m'.capacity == m.capacity
            && (|m.queue| <= m.capacity ==> |m'.queue| <= m.capacity)
  {
  }

  lemma StepConserves(s: State, e: Event)
    requires Conserved(s)
    ensures Conserved(Apply(s, e))
  {
    if e.thread < |s.procs| {
      var (m, pc) := Step(s.shared, s.procs[e.thread], e.action);
      forall d: Debt ensures Left(m, d) == Owed(m.style, s.procs[e.thread := pc], d, |s.procs|) {
        StepShifts(s.shared, s.procs[e.thread], e.action, d);
        OwedUpdate(s.shared.style, s.procs, e.thread, pc, d, |s.procs|);
      }
      StepShifts(s.shared, s.procs[e.thread], e.action, OwesItem);
    }
  }

  lemma {:induction false} RunConserves(style: Style, capacity: nat, threads: nat, events: seq<Event>)
    ensures Conserved(Run(Initial(style, capacity, threads), events))
  {
    var s := Initial(style, capacity, threads);
    if events == [] {
      forall d: Debt ensures Owed(style, s.procs, d, threads) == 0 {
        NothingOwed(style, s.procs, d, threads);
      }
    } else {
      RunConserves(style, capacity, threads, events[..|events| - 1]);
      StepConserves(Run(s, events[..|events| - 1]), events[|events| - 1]);
    }
  }

  ghost predicate Quiescent(s: State) { forall t :: 0 <= t < |s.procs| ==> s.procs[t] == Idle }

  /**
   In every interleaving of any number of producers and consumers the depth is within capacity, and
   whenever no operation is in flight pushes are popped, queued, evicted or lost, and each counter
   is exact. The drop counter counts slow paths: evictions and the evictions that found nothing.
   */
  lemma QueueConservation(style: Style, capacity: nat, threads: nat, events: seq<Event>)
    ensures var s := Run(Initial(style, capacity, threads), events);
            var m, c := s.shared, s.shared.counters;
            && |m.queue| <= capacity
            && (Quiescent(s) ==>
                && c.push == c.pop + |m.queue| + |m.evicted| + |m.lost|
                && c.drop == |m.evicted| + m.emptyEvicts
                && (style.CountLast? ==> c.enqueue == c.push - |m.lost|)
                && (c.push <= c.pop + c.drop + |m.queue| <==> |m.lost| <= m.emptyEvicts))
  {
    RunConserves(style, capacity, threads, events);
    RunKeepsConfig(Initial(style, capacity, threads), events);
    var s := Run(Initial(style, capacity, threads), events);
    if Quiescent(s) {
      forall d: Debt ensures Left(s.shared, d) == 0 {
        NothingOwed(s.shared.style, s.procs, d, |s.procs|);
      }
      assert Left(s.shared, OwesItem) == Left(s.shared, OwesPop) == 0;
      assert Left(s.shared, OwesEnqueue) == Left(s.shared, OwesDrop) == 0;
    }
  }

  lemma {:induction false} RunKeepsConfig(s: State, events: seq<Event>)
    ensures var s' := Run(s, events);
            s'.shared.style == s.shared.style && s'.shared.capacity == s.shared.capacity && |s'.procs| == |s.procs|
  {
    if events != [] { RunKeepsConfig(s, events[..|events| - 1]); }
  }
}
