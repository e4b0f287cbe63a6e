/**
 Interning of (exchange, symbol) pairs. `get_or_insert` is a lookup, a counter bump, a race for the
 forward entry and a separate insertion into the reverse map, so concurrent callers are step machines
 that may interleave anywhere.
 */
module SymbolMap {
  import opened Wrappers

  type Key = (string, string)

  // The counter is 32 bits wide and wraps.
  const WIDTH: nat := 0x1_0000_0000

  datatype Maps = Maps(toId: map<Key, nat>, fromId: map<nat, Key>, nextId: nat)

  datatype Pc =
    | Idle
    | Missed(key: Key)              // the lookup found nothing
    | Reserved(key: Key, id: nat)   // the counter has been bumped
    | Inserted(key: Key, id: nat)   // won the entry, reverse map to come

  datatype Event = Call(thread: nat, key: Key) | Advance(thread: nat)

  // `bumps`, `wasted` and `returned` are history.
  datatype Shared = Shared(maps: Maps, bumps: nat, wasted: nat, returned: set<(Key, nat)>) {
    function Return(key: Key, id: nat): Shared { this.(returned := returned + {(key, id)}) }
  }

  function Step(m: Shared, pc: Pc, e: Event): (Shared, Pc) {
    match (e, pc)
    case (Call(_, key), Idle) =>
      if key in m.maps.toId then (m.Return(key, m.maps.toId[key]), Idle) else (m, Missed(key))
    case (Advance(_), Missed(key)) =>
      (m.(maps := m.maps.(nextId := (m.maps.nextId + 1) % WIDTH), bumps := m.bumps + 1), Reserved(key, m.maps.nextId))
    case (Advance(_), Reserved(key, id)) =>
      if key in m.maps.toId then (m.(wasted := m.wasted + 1).Return(key, m.maps.toId[key]), Idle)
      else (m.(maps := m.maps.(toId := m.maps.toId[key := id])), Inserted(key, id))
    case (Advance(_), Inserted(key, id)) =>
      (m.(maps := m.maps.(fromId := m.maps.fromId[id := key])).Return(key, id), Idle)
    case _ => (m, pc)
  }

  datatype State = State(shared: Shared, procs: seq<Pc>)

  function Initial(threads: nat): State {
    State(Shared(Maps(map[], map[], 1), 0, 0, {}), seq(threads, _ => Idle))
  }

  function Apply(s: State, e: Event): State {
    if e.thread >= |s.procs| then s else
    var (shared, pc) := Step(s.shared, s.procs[e.thread], e);
    State(shared, s.procs[e.thread := pc])
  }

  function Run(s: State, events: History<Event>): State {
    match events
    case Start => s
    case Then(before, e) => Apply(Run(s, before), e)
  }

  /** The ids handed out by the first `bumps` bumps, as long as these are at most `WIDTH`. */
  predicate Issued(id: nat, bumps: nat) { id < WIDTH && (if id == 0 then bumps >= WIDTH else id <= bumps) }

  ghost predicate Injective(toId: map<Key, nat>) {
    forall k, k' :: k in toId && k' in toId && toId[k] == toId[k'] ==> k == k'
  }

  /** What a thread's position says about the maps. */
  predicate Placed(m: Shared, pc: Pc) {
    match pc
    case Reserved(_, id) => Issued(id, m.bumps) && id !in m.maps.toId.Values && id !in m.maps.fromId
    case Inserted(key, id) => key in m.maps.toId && m.maps.toId[key] == id && id !in m.maps.fromId
    case _ => true
  }

  predicate Clash(pc: Pc, pc': Pc) {
    || (pc.Reserved? && pc'.Reserved? && pc.id == pc'.id)
    || (pc.Inserted? && pc'.Inserted? && pc.id == pc'.id)
  }

  /** The maps alone: forward ids issued and injective, the reverse map inside the inverse, returns agreeing. */
  ghost predicate Consistent(m: Shared) {
    && m.maps.nextId == (1 + m.bumps) % WIDTH
    && (forall k :: k in m.maps.toId ==> Issued(m.maps.toId[k], m.bumps))
    && Injective(m.maps.toId)
    && (forall id :: id in m.maps.fromId ==> m.maps.fromId[id] in m.maps.toId && m.maps.toId[m.maps.fromId[id]] == id)
    && (forall r :: r in m.returned ==> r.0 in m.maps.toId && m.maps.toId[r.0] == r.1)
  }

  // The reverse entry of a mapped key is there, or the thread that won the race is about to make it.
  ghost predicate Reversed(s: State, key: Key)
    requires key in s.shared.maps.toId
  {
    var id := s.shared.maps.toId[key];
    id in s.shared.maps.fromId || exists t :: 0 <= t < |s.procs| && s.procs[t] == Inserted(key, id)
  }

  ghost predicate Interned(s: State) {
    && Consistent(s.shared)
    && (forall t :: 0 <= t < |s.procs| ==> Placed(s.shared, s.procs[t]))
    && (forall t, t' :: 0 <= t < t' < |s.procs| ==> !Clash(s.procs[t], s.procs[t']))
    && (forall k :: k in s.shared.maps.toId ==> Reversed(s, k))
  }

  lemma StepKeepsConsistent(m: Shared, pc: Pc, e: Event)
    requires Consistent(m) && Placed(m, pc) && Step(m, pc, e).0.bumps <= WIDTH
    ensures var (m', pc') := Step(m, pc, e); Consistent(m') && Placed(m', pc')
  {
  }

  // Another thread keeps its place: a step reserves a fresh id, and inserts only its own.
  lemma StepKeepsOthers(m: Shared, pc: Pc, e: Event, other: Pc)
    requires Consistent(m) && Placed(m, pc) && Placed(m, other) && !Clash(pc, other)
    requires Step(m, pc, e).0.bumps <= WIDTH
    ensures var (m', pc') := Step(m, pc, e); Placed(m', other) && !Clash(pc', other)
  {
  }

  lemma StepKeepsReversed(s: State, e: Event, key: Key)
    requires Interned(s) && e.thread < |s.procs| && key in Apply(s, e).shared.maps.toId
    ensures Reversed(Apply(s, e), key)
  {
    var s' := Apply(s, e);
    if s'.procs[e.thread] == Inserted(key, s'.shared.maps.toId[key]) {
    } else if key in s.shared.maps.toId && s.shared.maps.toId[key] !in s.shared.maps.fromId {
      var t :| 0 <= t < |s.procs| && s.procs[t] == Inserted(key, s.shared.maps.toId[key]);
      assert t != e.thread ==> s'.procs[t] == s.procs[t];
    }
  }

  lemma StepKeepsInterned(s: State, e: Event)
    requires Interned(s) && Apply(s, e).shared.bumps <= WIDTH
    ensures Interned(Apply(s, e))
  {
    if e.thread < |s.procs| {
      var t, s' := e.thread, Apply(s, e);
      StepKeepsConsistent(s.shared, s.procs[t], e);
      forall u | 0 <= u < |s.procs| && u != t
        ensures s'.procs[u] == s.procs[u] && Placed(s'.shared, s'.procs[u]) && !Clash(s'.procs[t], s'.procs[u])
      {
        assert !Clash(s.procs[if t < u then t else u], s.procs[if t < u then u else t]);
        StepKeepsOthers(s.shared, s.procs[t], e, s.procs[u]);
      }
      forall k | k in s'.shared.maps.toId ensures Reversed(s', k) { StepKeepsReversed(s, e, k); }
    }
  }

  lemma StepKeepsIds(s: State, e: Event, key: Key)
    requires key in s.shared.maps.toId
    ensures key in Apply(s, e).shared.maps.toId && Apply(s, e).shared.maps.toId[key] == s.shared.maps.toId[key]
  {
  }

  /** A key keeps its id from any moment of any run to its end, past 2^32 bumps too. */
  lemma {:induction false} RunKeepsIds(s: State, events: History<Event>, moment: History<Event>, key: Key)
    requires events.HasPrefix(moment) && key in Run(s, moment).shared.maps.toId
    ensures var before, after := Run(s, moment).shared.maps.toId, Run(s, events).shared.maps.toId;
            key in after && after[key] == before[key]
  {
    if moment != events {
      RunKeepsIds(s, events.before, moment, key);
      StepKeepsIds(Run(s, events.before), events.last, key);
    }
  }

  // ---- Counting ids ----

  function Count(procs: seq<Pc>, reserved: bool, n: nat): nat
    requires n <= |procs|
  {
    if n == 0 then 0 else Count(procs, reserved, n - 1) + One(procs[n - 1], reserved)
  }

  function One(pc: Pc, reserved: bool): nat { if (if reserved then pc.Reserved? else pc.Inserted?) then 1 else 0 }

  lemma {:induction false} CountUpdate(procs: seq<Pc>, t: nat, pc: Pc, reserved: bool, n: nat)
    requires t < |procs| && n <= |procs|
    ensures Count(procs[t := pc], reserved, n) + (if t < n then One(procs[t], reserved) else 0) ==
            Count(procs, reserved, n) + (if t < n then One(pc, reserved) else 0)
  {
    if n > 0 { CountUpdate(procs, t, pc, reserved, n - 1); }
  }

  lemma {:induction false} CountZero(procs: seq<Pc>, reserved: bool, n: nat)
    requires n <= |procs| && forall i :: 0 <= i < n ==> procs[i] == Idle
    ensures Count(procs, reserved, n) == 0
  {
    if n > 0 { CountZero(procs, reserved, n - 1); }
  }

  /**
   Each bump is a mapped key, a reservation in flight, or wasted on a lost race; and the forward map is
   ahead of the reverse map by exactly the threads between their two insertions.
   */
  ghost predicate Counted(s: State) {
    && s.shared.bumps == |s.shared.maps.toId| + Count(s.procs, true, |s.procs|) + s.shared.wasted
    && |s.shared.maps.toId| == |s.shared.maps.fromId| + Count(s.procs, false, |s.procs|)
  }

  lemma StepKeepsCounted(s: State, e: Event)
    requires Interned(s) && Counted(s)
    ensures Counted(Apply(s, e))
  {
    if e.thread < |s.procs| {
      var (m, pc) := Step(s.shared, s.procs[e.thread], e);
      CountUpdate(s.procs, e.thread, pc, true, |s.procs|);
      CountUpdate(s.procs, e.thread, pc, false, |s.procs|);
      assert Placed(s.shared, s.procs[e.thread]);
    }
  }

  lemma {:induction false} RunIsInterned(threads: nat, events: History<Event>)
    requires Run(Initial(threads), events).shared.bumps <= WIDTH
    ensures Interned(Run(Initial(threads), events)) && Counted(Run(Initial(threads), events))
  {
    match events
    case Start =>
      CountZero(Initial(threads).procs, true, threads);
      CountZero(Initial(threads).procs, false, threads);
    case Then(before, e) =>
      var s := Run(Initial(threads), before);
      assert s.shared.bumps <= Apply(s, e).shared.bumps;
      RunIsInterned(threads, before);
      StepKeepsInterned(s, e);
      StepKeepsCounted(s, e);
  }

  ghost predicate Quiescent(s: State) { forall t :: 0 <= t < |s.procs| ==> s.procs[t] == Idle }

  ghost predicate ExactInverses(m: Maps) {
    && (forall k :: k in m.toId ==> m.toId[k] in m.fromId && m.fromId[m.toId[k]] == k)
    && (forall id :: id in m.fromId ==> m.fromId[id] in m.toId && m.toId[m.fromId[id]] == id)
  }

  lemma QuiescentIsExact(s: State)
    requires Interned(s) && Counted(s) && Quiescent(s)
    ensures ExactInverses(s.shared.maps) && s.shared.bumps == |s.shared.maps.toId| + s.shared.wasted
  {
    CountZero(s.procs, true, |s.procs|);
    forall k | k in s.shared.maps.toId
      ensures s.shared.maps.toId[k] in s.shared.maps.fromId && s.shared.maps.fromId[s.shared.maps.toId[k]] == k
    {
      assert Reversed(s, k);
    }
  }

  ghost predicate ReturnsAgree(returned: set<(Key, nat)>) {
    forall r, r' :: r in returned && r' in returned ==> (r.0 == r'.0 <==> r.1 == r'.1)
  }

  /**
   Ids are injective, returns for one key agree and for distinct keys differ, and once no call is in
   flight the two maps are exact inverses and the counter is the mapped keys plus the lost races.
   */
  ghost predicate Guaranteed(s: State) {
    && Injective(s.shared.maps.toId) && ReturnsAgree(s.shared.returned)
    && (Quiescent(s) ==>
        && ExactInverses(s.shared.maps)
        && s.shared.maps.nextId == (1 + |s.shared.maps.toId| + s.shared.wasted) % WIDTH)
  }

  /** In every interleaving of any number of calls that bump the counter at most 2^32 times. */
  lemma InterningIsConsistent(threads: nat, events: History<Event>)
    requires Run(Initial(threads), events).shared.bumps <= WIDTH
    ensures Guaranteed(Run(Initial(threads), events))
  {
    RunIsInterned(threads, events);
    Conclude(Run(Initial(threads), events));
  }

  lemma Conclude(s: State)
    requires Interned(s) && Counted(s)
    ensures Guaranteed(s)
  {
    if Quiescent(s) { QuiescentIsExact(s); }
  }

  /** One bump more and it breaks: the counter hands out an id that is already mapped. */
  lemma WrapReusesIds(s: State, t: nat, key: Key, first: Key)
    requires Interned(s) && s.shared.bumps == WIDTH
    requires t < |s.procs| && s.procs[t] == Missed(key) && key !in s.shared.maps.toId
    requires first in s.shared.maps.toId && s.shared.maps.toId[first] == 1
    ensures !Injective(Apply(Apply(s, Advance(t)), Advance(t)).shared.maps.toId)
  {
    var s1 := Apply(s, Advance(t));
    assert s1.procs[t] == Reserved(key, 1);
    var toId := Apply(s1, Advance(t)).shared.maps.toId;
    assert toId == s.shared.maps.toId[key := 1];
    assert toId[key] == toId[first];
  }

  // ---- One caller at a time ----

  function Intern(m: Maps, key: Key): Maps {
    if key in m.toId then m
    else Maps(m.toId[key := m.nextId], m.fromId[m.nextId := key], (m.nextId + 1) % WIDTH)
  }

  /** A call whose steps no other thread interrupts interns its key and returns the key's id. */
  lemma UninterruptedCall(s: State, t: nat, key: Key)
    requires t < |s.procs| && s.procs[t] == Idle
    ensures var s' := Apply(Apply(Apply(Apply(s, Call(t, key)), Advance(t)), Advance(t)), Advance(t));
            && s'.shared.maps == Intern(s.shared.maps, key)
            && s'.procs == s.procs
            && s'.shared.returned == s.shared.returned + {(key, s'.shared.maps.toId[key])}
            && s'.shared.bumps == s.shared.bumps + (if key in s.shared.maps.toId then 0 else 1)
  {
    var s1 := Apply(s, Call(t, key));
    var s2 := Apply(s1, Advance(t));
    var s3 := Apply(s2, Advance(t));
    if key in s.shared.maps.toId {
      assert s1.procs == s2.procs == s3.procs == s.procs;
    } else {
      assert s1.procs[t] == Missed(key);
      assert s2.procs[t] == Reserved(key, s.shared.maps.nextId) && s2.shared.maps.toId == s.shared.maps.toId;
      assert s3.procs[t] == Inserted(key, s.shared.maps.nextId);
    }
  }

  // ---- How many bumps the ids bear ----

  // A supply of distinct keys.
  function KeyOf(i: nat): Key { ("", seq(i, _ => 'a')) }

  ghost predicate FilledMaps(m: Maps, n: nat) {
    && m.nextId == (1 + n) % WIDTH
    && (forall k :: k in m.toId ==> |k.1| < n)
    && (n > 0 ==> KeyOf(0) in m.toId && m.toId[KeyOf(0)] == 1)
    && (n > 0 ==> KeyOf(n - 1) in m.toId && m.toId[KeyOf(n - 1)] == n % WIDTH)
  }

  ghost predicate FilledTo(s: State, threads: nat, n: nat) {
    |s.procs| == threads && Quiescent(s) && s.shared.bumps == n && FilledMaps(s.shared.maps, n)
  }

  lemma InternOneMore(m: Maps, n: nat)
    requires FilledMaps(m, n)
    ensures KeyOf(n) !in m.toId && FilledMaps(Intern(m, KeyOf(n)), n + 1)
  {
    assert |KeyOf(n).1| == n;
  }

  lemma FillOneMore(s: State, threads: nat, n: nat)
    requires FilledTo(s, threads, n) && threads > 0
    ensures FilledTo(Apply(Apply(Apply(Apply(s, Call(0, KeyOf(n))), Advance(0)), Advance(0)), Advance(0)), threads, n + 1)
  {
    InternOneMore(s.shared.maps, n);
    UninterruptedCall(s, 0, KeyOf(n));
  }

  lemma {:induction false} Fill(threads: nat, n: nat) returns (events: History<Event>)
    requires threads > 0
    ensures FilledTo(Run(Initial(threads), events), threads, n)
  {
    if n == 0 {
      events := Start;
    } else {
      events := Fill(threads, n - 1);
      FillOneMore(Run(Initial(threads), events), threads, n - 1);
      events := Then(Then(events, Call(0, KeyOf(n - 1))), Advance(0));
      assert Run(Initial(threads), events) == Apply(Run(Initial(threads), events.before), Advance(0));
      events := Then(Then(events, Advance(0)), Advance(0));
    }
  }

  /**
   Ids are unique over all interleavings that bump the counter at most `bound` times if and only if
   `bound` is at most 2^32.
   */
  lemma IdsUniqueIff(threads: nat, bound: nat)
    requires threads > 0
    ensures (forall events: History<Event> :: Run(Initial(threads), events).shared.bumps <= bound ==>
               Injective(Run(Initial(threads), events).shared.maps.toId)) <==> bound <= 0x1_0000_0000
  {
    if bound <= WIDTH {
      forall events: History<Event> | Run(Initial(threads), events).shared.bumps <= bound
        ensures Injective(Run(Initial(threads), events).shared.maps.toId)
      {
        InterningIsConsistent(threads, events);
      }
    } else {
      var events := Fill(threads, WIDTH + 1);
      var toId := Run(Initial(threads), events).shared.maps.toId;
      assert |KeyOf(WIDTH).1| != |KeyOf(0).1|;
      assert KeyOf(WIDTH) in toId && toId[KeyOf(WIDTH)] == toId[KeyOf(0)];
      assert !Injective(Run(Initial(threads), events).shared.maps.toId);
    }
  }

  /** What holds between calls: exact inverses, ids issued one by one. */
  ghost predicate ValidMaps(m: Maps) {
    && ExactInverses(m) && |m.toId| <= WIDTH && m.nextId == (1 + |m.toId|) % WIDTH
    && (forall k :: k in m.toId ==> Issued(m.toId[k], |m.toId|))
  }

  lemma InternKeepsValid(m: Maps, key: Key)
    requires ValidMaps(m) && (key in m.toId || |m.toId| < WIDTH)
    ensures ValidMaps(Intern(m, key))
    ensures key !in m.toId ==> |Intern(m, key).toId| == |m.toId| + 1
  {
    if key !in m.toId {
      assert !Issued(m.nextId, |m.toId|);
      assert m.nextId !in m.fromId;
      AddKeepsInverses(m, key);
      assert forall id :: Issued(id, |m.toId|) || id == m.nextId ==> Issued(id, |m.toId| + 1);
    }
  }

  lemma AddKeepsInverses(m: Maps, key: Key)
    requires ExactInverses(m) && key !in m.toId && m.nextId !in m.fromId
    ensures ExactInverses(Intern(m, key))
  {
  }

  const COMMON_EXCHANGES: seq<string> := ["bybit", "okx", "kucoin", "bitget", "hyperliquid", "paradex"]

  const COMMON_SYMBOLS: seq<string> := ["BTCUSDT", "ETHUSDT", "SOLUSDT", "BNBUSDT", "XRPUSDT",
                                 "ADAUSDT", "DOGEUSDT", "MATICUSDT", "DOTUSDT", "AVAXUSDT"]

  ghost predicate Distinct<T(!new)>(keys: seq<T>) { forall p, q :: 0 <= p < q < |keys| ==> keys[p] != keys[q] }

  lemma NamesAreDistinct()
    ensures Distinct(COMMON_EXCHANGES) && Distinct(COMMON_SYMBOLS)
  {
    forall i, j | 0 <= i < j < |COMMON_EXCHANGES| ensures COMMON_EXCHANGES[i] != COMMON_EXCHANGES[j] {
      assert COMMON_EXCHANGES[i][0] != COMMON_EXCHANGES[j][0] || COMMON_EXCHANGES[i][1] != COMMON_EXCHANGES[j][1];
    }
    forall i, j | 0 <= i < j < |COMMON_SYMBOLS| ensures COMMON_SYMBOLS[i] != COMMON_SYMBOLS[j] {
      assert |COMMON_SYMBOLS[i]| != |COMMON_SYMBOLS[j]| || COMMON_SYMBOLS[i][0] != COMMON_SYMBOLS[j][0]
             || COMMON_SYMBOLS[i][1] != COMMON_SYMBOLS[j][1];
    }
  }

  /** The pairs of ten symbols with each exchange, in the order in which they are allocated. */
  function Pairs(exchanges: seq<string>, symbols: seq<string>): (keys: seq<Key>)
    requires |symbols| == 10
    ensures |keys| == 10 * |exchanges|
    ensures forall i, j :: 0 <= i < |exchanges| && 0 <= j < 10 ==> keys[10 * i + j] == (exchanges[i], symbols[j])
    ensures Distinct(exchanges) && Distinct(symbols) ==> Distinct(keys)
  {
    seq(10 * |exchanges|, p requires 0 <= p < 10 * |exchanges| => (exchanges[p / 10], symbols[p % 10]))
  }

  /** Exactly the first `n` keys are mapped, each to its position counted from 1. */
  ghost predicate Preallocated(m: Maps, keys: seq<Key>, n: nat) {
    && n <= |keys| && ValidMaps(m) && |m.toId| == n
    && (forall p :: 0 <= p < n ==> keys[p] in m.toId && m.toId[keys[p]] == p + 1)
  }

  lemma MappedKey(m: Maps, keys: seq<Key>, n: nat, key: Key)
    requires Preallocated(m, keys, n) && n <= |keys| < WIDTH - 1 && key in m.toId
    ensures 1 <= m.toId[key] <= n && keys[m.toId[key] - 1] == key
  {
    var p := m.toId[key] - 1;
    assert m.toId[keys[p]] == p + 1;
    assert m.fromId[p + 1] == keys[p];
  }

  lemma PreallocateNext(m: Maps, keys: seq<Key>, n: nat)
    requires Preallocated(m, keys, n) && n < |keys| < WIDTH - 1 && Distinct(keys)
    ensures Preallocated(Intern(m, keys[n]), keys, n + 1)
  {
    if keys[n] in m.toId { MappedKey(m, keys, n, keys[n]); }
    InternKeepsValid(m, keys[n]);
  }

  class Interner {
    var toId: map<Key, nat>
    var fromId: map<nat, Key>
    var nextId: nat

    ghost function Contents(): Maps reads this { Maps(toId, fromId, nextId) }

    ghost predicate Valid() reads this { ValidMaps(Contents()) }

    /** Fresh maps hold the 60 common symbols, under ids fixed by their position. */
    constructor ()
      ensures Valid() && |toId| == |COMMON_EXCHANGES| * |COMMON_SYMBOLS|
      ensures Preallocated(Contents(), Pairs(COMMON_EXCHANGES, COMMON_SYMBOLS), |COMMON_EXCHANGES| * |COMMON_SYMBOLS|)
    {
      toId, fromId, nextId := map[], map[], 1;
      new;
      NamesAreDistinct();
      PreallocateCommonSymbols(COMMON_EXCHANGES, COMMON_SYMBOLS);
    }

    method PreallocateCommonSymbols(exchanges: seq<string>, symbols: seq<string>)
      requires Valid() && toId == map[]
      requires |symbols| == 10 && 10 * |exchanges| < WIDTH - 1 && Distinct(exchanges) && Distinct(symbols)
      modifies this
      ensures Preallocated(Contents(), Pairs(exchanges, symbols), 10 * |exchanges|)
    {
      ghost var keys := Pairs(exchanges, symbols);
      for i := 0 to |exchanges|
        invariant Preallocated(Contents(), keys, 10 * i)
      {
        PreallocateExchange(exchanges, i, symbols, keys);
      }
    }

    // The inner loop.
    method PreallocateExchange(exchanges: seq<string>, i: nat, symbols: seq<string>, ghost keys: seq<Key>)
      requires i < |exchanges| && |symbols| == 10 && |keys| == 10 * |exchanges| < WIDTH - 1 && Distinct(keys)
      requires forall j :: 0 <= j < 10 ==> keys[10 * i + j] == (exchanges[i], symbols[j])
      requires Preallocated(Contents(), keys, 10 * i)
      modifies this
      ensures Preallocated(Contents(), keys, 10 * i + 10)
    {
      for j := 0 to |symbols|
        invariant Preallocated(Contents(), keys, 10 * i + j)
      {
        assert keys[10 * i + j] == (exchanges[i], symbols[j]);
        PreallocateNext(Contents(), keys, 10 * i + j);
        var _ := GetOrInsert(exchanges[i], symbols[j]);
      }
    }

    method GetOrInsert(exchange: string, symbol: string) returns (id: nat)
      modifies this
      ensures var key := (exchange, symbol);
              && Contents() == Intern(old(Contents()), key)
              && id == toId[key]
              && (old(Valid()) && (key in old(toId) || |old(toId)| < WIDTH) ==> Valid())
    {
      var key := (exchange, symbol);
      ghost var before := Contents();
      if ValidMaps(before) && (key in toId || |toId| < WIDTH) { InternKeepsValid(before, key); }
      if key in toId { return toId[key]; }
      id := nextId;
      nextId := (nextId + 1) % WIDTH;
      toId := toId[key := id];
      fromId := fromId[id := key];
    }

    method Get(symbolId: nat) returns (r: Option<Key>)
      ensures r == if symbolId in fromId then Some(fromId[symbolId]) else None
      ensures Valid() ==> match r
                          case Some(key) => key in toId && toId[key] == symbolId
                          case None => forall k :: k in toId ==> toId[k] != symbolId
    {
      if symbolId in fromId { return Some(fromId[symbolId]); }
      r := None;
    }
  }
}
