/** The bounded response cache: a recency list and a map that change together, with the
    counters reported for them.  Ghost fields record the whole history of uses, lookups,
    inserts and expiry removals, so the class invariant speaks about every run. */
module ResponseCache {
  import opened Options
  import opened CacheEntries

  type QType = nat

  datatype Key = Key(name: string, qtype: QType, group: string, route: string, scope: string)

  datatype TypeStats = TypeStats(hits: nat, misses: nat, evictions: nat, expirations: nat)

  // ----- recency -----

  /** The clock reading at the last use of each key. */
  type Stamps = map<Key, nat>

  function LastUse(stamps: Stamps, k: Key): nat {
    if k in stamps then stamps[k] else 0
  }

  /** List and map hold the same keys, once each and within capacity, and the list runs
      from the most to the least recently used key. */
  ghost predicate Linked(order: seq<Key>, items: map<Key, Entry>, capacity: nat, stamps: Stamps, clock: nat) {
    && |items| == |order| <= capacity
    && (forall k :: k in items <==> k in order)
    && ByRecency(order, stamps, clock)
  }

  ghost predicate ByRecency(order: seq<Key>, stamps: Stamps, clock: nat) {
    && (forall i {:trigger LastUse(stamps, order[i])} | 0 <= i < |order| :: LastUse(stamps, order[i]) < clock)
    && (forall i, j {:trigger LastUse(stamps, order[j]), LastUse(stamps, order[i])} | 0 <= i < j < |order| ::
          LastUse(stamps, order[j]) < LastUse(stamps, order[i]))
  }

  /** k is the key whose last use is the oldest. */
  ghost predicate IsOldest(items: map<Key, Entry>, stamps: Stamps, k: Key) {
    k in items && forall x | x in items && x != k :: LastUse(stamps, k) < LastUse(stamps, x)
  }

  lemma BackIsOldest(order: seq<Key>, items: map<Key, Entry>, capacity: nat, stamps: Stamps, clock: nat)
    requires Linked(order, items, capacity, stamps, clock) && order != []
    ensures IsOldest(items, stamps, order[|order| - 1]) && order[|order| - 1] in items
  {
  }

  /** The list after unlinking the element at i. */
  function RemoveAt(order: seq<Key>, i: nat): seq<Key>
    requires i < |order|
  {
    order[..i] + order[i + 1..]
  }

  lemma RemoveKeepsLinked(order: seq<Key>, items: map<Key, Entry>, capacity: nat, stamps: Stamps, clock: nat, i: nat)
    requires Linked(order, items, capacity, stamps, clock) && i < |order|
    ensures Linked(RemoveAt(order, i), items - {order[i]}, capacity, stamps, clock)
  {
    RemoveKeepsRecency(order, stamps, clock, i);
    var r := RemoveAt(order, i);
    forall k ensures k in r <==> k in order && k != order[i] {
      if k in order && k != order[i] {
        var j :| 0 <= j < |order| && order[j] == k;
        assert r[if j < i then j else j - 1] == k;
      }
      if k in r {
        var j :| 0 <= j < |r| && r[j] == k;
        var j' := if j < i then j else j + 1;
        assert order[j'] == k;
        assert LastUse(stamps, order[j']) != LastUse(stamps, order[i]);
      }
    }
  }

  lemma RemoveKeepsRecency(order: seq<Key>, stamps: Stamps, clock: nat, i: nat)
    requires ByRecency(order, stamps, clock) && i < |order|
    ensures ByRecency(RemoveAt(order, i), stamps, clock)
  {
  }

  lemma PushKeepsLinked(order: seq<Key>, items: map<Key, Entry>, capacity: nat, stamps: Stamps, clock: nat, k: Key, e: Entry)
    requires Linked(order, items, capacity, stamps, clock) && k !in items && |items| < capacity
    ensures Linked([k] + order, items[k := e], capacity, stamps[k := clock], clock + 1)
  {
    var r, stamps' := [k] + order, stamps[k := clock];
    forall j | 0 <= j < |r| ensures LastUse(stamps', r[j]) == if j == 0 then clock else LastUse(stamps, order[j - 1]) {
      assert j > 0 ==> r[j] == order[j - 1] && order[j - 1] in order;
    }
    forall i, j | 0 <= i < j < |r| ensures LastUse(stamps', r[j]) < LastUse(stamps', r[i]) {
      assert LastUse(stamps, order[j - 1]) < clock;
      assert i > 0 ==> LastUse(stamps, order[j - 1]) < LastUse(stamps, order[i - 1]);
    }
  }

  // ----- per-type counters -----

  type ByType = map<QType, TypeStats>

  function StatsOf(byType: ByType, t: QType): TypeStats {
    if t in byType then byType[t] else TypeStats(0, 0, 0, 0)
  }

  function Plus(a: TypeStats, b: TypeStats): TypeStats {
    TypeStats(a.hits + b.hits, a.misses + b.misses, a.evictions + b.evictions, a.expirations + b.expirations)
  }

  /** The counters of all types below n, added up. */
  function SumBelow(byType: ByType, n: nat): TypeStats {
    if n == 0 then TypeStats(0, 0, 0, 0) else Plus(SumBelow(byType, n - 1), StatsOf(byType, n - 1))
  }

  /** Replacing one type's counters moves every sum by the difference. */
  lemma {:induction false} SumAfterUpdate(byType: ByType, t: QType, v: TypeStats, n: nat)
    ensures var before, after := SumBelow(byType, n), SumBelow(byType[t := v], n);
            var old' := StatsOf(byType, t);
            if t < n then
              && after.hits + old'.hits == before.hits + v.hits
              && after.misses + old'.misses == before.misses + v.misses
              && after.evictions + old'.evictions == before.evictions + v.evictions
              && after.expirations + old'.expirations == before.expirations + v.expirations
            else after == before
  {
    if n > 0 {
      SumAfterUpdate(byType, t, v, n - 1);
    }
  }

  lemma {:induction false} EmptySum(n: nat)
    ensures SumBelow(map[], n) == TypeStats(0, 0, 0, 0)
  {
    if n > 0 {
      EmptySum(n - 1);
    }
  }

  datatype Counters = Counters(hits: nat, plain: nat, negative: nat, prefetched: nat, servfail: nat,
                               misses: nat, stale: nat, evictions: nat, cleared: nat, invalidated: nat,
                               byType: ByType)

  /** What happened since the start: lookups, new-key inserts, and removals of expired entries. */
  datatype History = History(lookups: nat, inserts: nat, expiredRemoved: nat)

  /** Every lookup is a hit or a miss, every inserted entry is still there or left in one
      counted way, and the per-type counters add up to the totals. */
  ghost predicate Balanced(c: Counters, h: History, live: nat, types: nat) {
    var sum := SumBelow(c.byType, types);
    && c.hits + c.misses == h.lookups
    && c.plain <= c.hits <= c.plain + c.prefetched + c.negative + c.servfail
    && h.inserts == live + c.evictions + c.cleared + c.invalidated + h.expiredRemoved
    && sum.hits == c.hits && sum.misses == c.misses && sum.evictions == c.evictions
    && h.expiredRemoved <= sum.expirations
  }

  function AddHit(s: TypeStats): TypeStats { s.(hits := s.hits + 1) }

  function AddMiss(s: TypeStats): TypeStats { s.(misses := s.misses + 1) }

  function AddEviction(s: TypeStats): TypeStats { s.(evictions := s.evictions + 1) }

  function AddExpiration(s: TypeStats): TypeStats { s.(expirations := s.expirations + 1) }

  function CountHit(c: Counters, e: Entry, t: QType): Counters {
    c.(hits := c.hits + 1,
       prefetched := c.prefetched + (if e.prefetched then 1 else 0),
       negative := c.negative + (if e.negative then 1 else 0),
       servfail := c.servfail + (if e.servfail then 1 else 0),
       plain := c.plain + (if e.prefetched || e.negative || e.servfail then 0 else 1),
       byType := c.byType[t := AddHit(StatsOf(c.byType, t))])
  }

  function CountMiss(c: Counters, t: QType): Counters {
    c.(misses := c.misses + 1, byType := c.byType[t := AddMiss(StatsOf(c.byType, t))])
  }

  function CountEviction(c: Counters, t: QType): Counters {
    c.(evictions := c.evictions + 1, byType := c.byType[t := AddEviction(StatsOf(c.byType, t))])
  }

  function CountExpiration(c: Counters, t: QType): Counters {
    c.(byType := c.byType[t := AddExpiration(StatsOf(c.byType, t))])
  }

  lemma HitBalances(c: Counters, h: History, live: nat, types: nat, e: Entry, t: QType)
    requires Balanced(c, h, live, types) && t < types
    ensures Balanced(CountHit(c, e, t), h.(lookups := h.lookups + 1), live, types)
  {
    SumAfterUpdate(c.byType, t, AddHit(StatsOf(c.byType, t)), types);
  }

  lemma MissBalances(c: Counters, h: History, live: nat, types: nat, t: QType)
    requires Balanced(c, h, live, types) && t < types
    ensures Balanced(CountMiss(c, t), h.(lookups := h.lookups + 1), live, types)
  {
    SumAfterUpdate(c.byType, t, AddMiss(StatsOf(c.byType, t)), types);
  }

  lemma InvalidationBalances(c: Counters, h: History, live: nat, types: nat, removed: nat)
    requires Balanced(c, h, live + removed, types)
    ensures Balanced(c.(invalidated := c.invalidated + removed), h, live, types)
  {
  }

  lemma EvictionBalances(c: Counters, h: History, live: nat, types: nat, t: QType)
    requires Balanced(c, h, live, types) && t < types && live > 0
    ensures Balanced(CountEviction(c, t), h, live - 1, types)
  {
    SumAfterUpdate(c.byType, t, AddEviction(StatsOf(c.byType, t)), types);
  }

  /** An expired entry is counted when first seen, and may be removed at that moment. */
  lemma ExpirationBalances(c: Counters, h: History, live: nat, types: nat, t: QType)
    requires Balanced(c, h, live, types) && t < types
    ensures Balanced(CountExpiration(c, t), h, live, types)
    ensures live > 0 ==> Balanced(CountExpiration(c, t), h.(expiredRemoved := h.expiredRemoved + 1), live - 1, types)
  {
    SumAfterUpdate(c.byType, t, AddExpiration(StatsOf(c.byType, t)), types);
  }

  // ----- the cache -----

  /** Stored entries have a lifetime; only a stale-serving cache keeps entries seen expired. */
  ghost predicate Sound(items: map<Key, Entry>, optimistic: bool, types: nat) {
    forall k | k in items :: items[k].ttl >= 1 && k.qtype < types && (items[k].expiredObserved ==> optimistic)
  }

  lemma SoundWithout(items: map<Key, Entry>, optimistic: bool, types: nat, k: Key)
    requires Sound(items, optimistic, types) && k in items
    ensures Sound(items - {k}, optimistic, types) && k.qtype < types
  {
  }

  lemma SoundReplaced(items: map<Key, Entry>, optimistic: bool, types: nat, k: Key, e: Entry)
    requires Sound(items, optimistic, types) && k in items && e.ttl >= 1 && (e.expiredObserved ==> optimistic)
    ensures Sound(items[k := e], optimistic, types)
  {
  }

  lemma MapReplaced(items: map<Key, Entry>, k: Key, e: Entry)
    ensures (items - {k})[k := e] == items[k := e]
    ensures k in items ==> |items - {k}| == |items| - 1
  {
    if k in items {
      assert (items - {k}).Keys == items.Keys - {k};
      assert |(items - {k}).Keys| == |items.Keys| - 1;
    }
  }

  lemma LinkedSize(order: seq<Key>, items: map<Key, Entry>, capacity: nat, stamps: Stamps, clock: nat)
    requires Linked(order, items, capacity, stamps, clock)
    ensures |order| == |items| <= capacity
  {
  }

  lemma SoundSubmap(items: map<Key, Entry>, items': map<Key, Entry>, optimistic: bool, types: nat)
    requires Sound(items, optimistic, types) && forall k | k in items' :: k in items && items'[k] == items[k]
    ensures Sound(items', optimistic, types)
  {
  }

  /** Defaults and swapped bounds as the configuration is read. */
  function Capacity(capacity: int): (c: nat)
    ensures c >= 1 && (c == capacity || (capacity <= 0 && c == DEFAULT_CAPACITY))
  {
    if capacity <= 0 then DEFAULT_CAPACITY else capacity
  }

  function Bounds(minTtl: nat, maxTtl: nat): (b: (nat, nat))
    ensures 1 <= b.0 <= b.1
    ensures 1 <= minTtl <= maxTtl ==> b == (minTtl, maxTtl)
    ensures var lo, hi := if minTtl == 0 then 60 else minTtl, if maxTtl == 0 then 600 else maxTtl; b == (lo, hi) || b == (hi, lo)
  {
    var lo := if minTtl == 0 then DEFAULT_MIN_TTL else minTtl;
    var hi := if maxTtl == 0 then DEFAULT_MAX_TTL else maxTtl;
    if lo > hi then (hi, lo) else (lo, hi)
  }

  /** The entries that are still to be looked at or stay. */
  function Undecided(items: map<Key, Entry>, todo: set<Key>, doomed: Key -> bool): map<Key, Entry> {
    map k | k in items && (k in todo || !doomed(k)) :: items[k]
  }

  lemma UndecidedEnds(items: map<Key, Entry>, doomed: Key -> bool)
    ensures Undecided(items, items.Keys, doomed) == items
    ensures Undecided(items, {}, doomed) == map k | k in items && !doomed(k) :: items[k]
  {
  }

  lemma UndecidedStep(items: map<Key, Entry>, todo: set<Key>, doomed: Key -> bool, k: Key)
    requires k in todo
    ensures var before, after := Undecided(items, todo, doomed), Undecided(items, todo - {k}, doomed);
            && after == (if doomed(k) then before - {k} else before)
            && (k in items ==> k in before) && (todo <= before.Keys ==> todo - {k} <= after.Keys)
            && (before.Keys <= items.Keys)
  {
  }


  class Cache {
    var capacity: nat
    var minTtl: nat
    var maxTtl: nat
    var optimistic: bool
    var order: seq<Key>
    var items: map<Key, Entry>
    var stats: Counters

    /** When each key was last used, and the events behind the counters. */
    ghost var stamps: Stamps
    ghost var clock: nat
    ghost var history: History

    /** An upper bound of the question types that occur. */
    ghost const types: nat

    ghost predicate Valid()
      reads this
    {
      && 1 <= capacity && 1 <= minTtl <= maxTtl
      && Linked(order, items, capacity, stamps, clock)
      && Sound(items, optimistic, types)
      && Balanced(stats, history, |order|, types)
    }

    constructor (capacity: int, minTtl: nat, maxTtl: nat, optimistic: bool, ghost types: nat)
      ensures Valid() && items == map[] && history == History(0, 0, 0)
      ensures this.optimistic == optimistic && this.types == types
    {
      this.capacity := Capacity(capacity);
      var b := Bounds(minTtl, maxTtl);
      this.minTtl, this.maxTtl, this.optimistic, this.types := b.0, b.1, optimistic, types;
      order, items, stamps, clock := [], map[], map[], 0;
      stats := Counters(0, 0, 0, 0, 0, 0, 0, 0, 0, 0, map[]);
      history := History(0, 0, 0);
      EmptySum(types);
    }

    /** A live entry is a hit and becomes the most recent; an expired one is a miss and,
        unless stale answers are allowed, is removed. */
    method Get(key: Key, now: int) returns (r: Option<(Entry, int)>)
      requires Valid() && key.qtype < types
      modifies `order, `items, `stats, `stamps, `clock, `history
      ensures Valid() && history.lookups == old(history.lookups) + 1 && history.inserts == old(history.inserts)
      ensures r.Some? <==> key in old(items) && Live(old(items)[key], now)
      ensures r.Some? ==>
                var e := old(items)[key];
                && r.value == (e.(hits := e.hits + 1), RemainingTtl(e, now))
                && items == old(items)[key := e.(hits := e.hits + 1)]
                && stamps == old(stamps)[key := old(clock)] && stats.hits == old(stats.hits) + 1
      ensures r.Some? ==>
                var e := old(items)[key];
                && stats == old(stats).(hits := old(stats.hits) + 1, byType := stats.byType,
                                        prefetched := old(stats.prefetched) + (if e.prefetched then 1 else 0),
                                        negative := old(stats.negative) + (if e.negative then 1 else 0),
                                        servfail := old(stats.servfail) + (if e.servfail then 1 else 0),
                                        plain := old(stats.plain) + (if e.prefetched || e.negative || e.servfail then 0 else 1))
                && StatsOf(stats.byType, key.qtype)
                   == StatsOf(old(stats.byType), key.qtype).(hits := StatsOf(old(stats.byType), key.qtype).hits + 1)
      ensures r.None? ==> stamps == old(stamps) && stats.misses == old(stats.misses) + 1
      ensures r.None? ==>
                var before := StatsOf(old(stats.byType), key.qtype);
                var expired := key in old(items) && !old(items)[key].expiredObserved;
                && stats == old(stats).(misses := old(stats.misses) + 1, byType := stats.byType)
                && StatsOf(stats.byType, key.qtype)
                   == before.(misses := before.misses + 1, expirations := before.expirations + if expired then 1 else 0)
      ensures forall t | t != key.qtype :: StatsOf(stats.byType, t) == StatsOf(old(stats.byType), t)
      ensures r.None? && key in old(items) ==>
                items == if optimistic then old(items)[key := old(items)[key].(expiredObserved := true)]
                         else old(items) - {key}
      ensures r.None? && key !in old(items) ==> items == old(items)
    {
      hide Linked, Balanced;
      if key !in items {
        RecordMiss(key.qtype);
        return None;
      }
      var e := items[key];
      var remaining := RemainingTtl(e, now);
      if remaining <= 0 {
        Expire(key);
        RecordMiss(key.qtype);
        return None;
      }
      RecordHit(key);
      Replace(key, e.(hits := e.hits + 1));
      return Some((e.(hits := e.hits + 1), remaining));
    }

    /** The entry whatever its age, leaving recency alone. */
    method GetStale(key: Key, now: int) returns (r: Option<Entry>)
      requires Valid()
      modifies `stats
      ensures Valid()
      ensures r == if key in items then Some(items[key]) else None
      ensures stats == old(stats).(stale := old(stats.stale) +
                                            if key in items && !Live(items[key], now) then 1 else 0)
    {
      if key !in items {
        return None;
      }
      if RemainingTtl(items[key], now) <= 0 {
        stats := stats.(stale := stats.stale + 1);
      }
      return Some(items[key]);
    }

    /** Storing a new key in a full cache evicts the one key whose last use is the oldest. */
    method Set(key: Key, e: Entry) returns (ghost victim: Option<Key>)
      requires Valid() && key.qtype < types && e.ttl >= 1 && !e.expiredObserved
      modifies `order, `items, `stats, `stamps, `clock, `history
      ensures Valid() && stamps == old(stamps)[key := old(clock)]
      ensures history == old(history).(inserts := old(history.inserts) + if key in old(items) then 0 else 1)
      ensures victim.Some? <==> key !in old(items) && |old(items)| >= capacity
      ensures victim.None? ==> items == old(items)[key := e] && stats == old(stats)
      ensures victim.Some? ==>
                && IsOldest(old(items), old(stamps), victim.value)
                && items == (old(items) - {victim.value})[key := e]
                && stats == old(stats).(evictions := old(stats.evictions) + 1, byType := stats.byType)
                && StatsOf(stats.byType, victim.value.qtype)
                   == StatsOf(old(stats.byType), victim.value.qtype).(evictions := StatsOf(old(stats.byType), victim.value.qtype).evictions + 1)
                && forall t | t != victim.value.qtype :: StatsOf(stats.byType, t) == StatsOf(old(stats.byType), t)
    {
      victim := None;
      if key in items {
        Replace(key, e);
        return;
      }
      if |items| >= capacity {
        ghost var oldest := EvictOldest();
        victim := Some(oldest);
      }
      Insert(key, e);
    }

    method Clear() returns (n: nat)
      requires Valid()
      modifies `order, `items, `stats
      ensures Valid() && items == map[] && n == |old(items)|
      ensures stats == old(stats).(cleared := old(stats.cleared) + n)
    {
      n := |items|;
      order, items := [], map[];
      stats := stats.(cleared := stats.cleared + n);
    }

    /** New bounds; entries stored under the old ones are dropped. */
    method Reconfigure(newCapacity: int, newMinTtl: nat, newMaxTtl: nat, newOptimistic: bool)
      requires Valid()
      modifies `capacity, `minTtl, `maxTtl, `optimistic, `order, `items, `stats
      ensures Valid() && items == map[] && optimistic == newOptimistic
      ensures stats == old(stats).(cleared := old(stats.cleared) + |old(items)|)
      ensures capacity == Capacity(newCapacity) && (minTtl, maxTtl) == Bounds(newMinTtl, newMaxTtl)
    {
      capacity := Capacity(newCapacity);
      var b := Bounds(newMinTtl, newMaxTtl);
      minTtl, maxTtl, optimistic := b.0, b.1, newOptimistic;
      stats := stats.(cleared := stats.cleared + |items|);
      order, items := [], map[];
    }

    /** Removes exactly the entries whose keys match. */
    method Invalidate(doomed: Key -> bool) returns (removed: nat)
      requires Valid()
      modifies `order, `items, `stats
      ensures Valid() && items == (map k | k in old(items) && !doomed(k) :: old(items)[k])
      ensures stats == old(stats).(invalidated := old(stats.invalidated) + removed)
      ensures |old(items)| == |items| + removed
    {
      hide Balanced, Sound, Linked, IsOldest, Undecided;
      removed := 0;
      var todo := items.Keys;
      UndecidedEnds(items, doomed);
      while todo != {}
        invariant todo <= items.Keys && items == Undecided(old(items), todo, doomed)
        invariant |old(items)| == |items| + removed && |old(order)| == |order| + removed
        invariant Linked(order, items, capacity, stamps, clock) && stats == old(stats)
        decreases |todo|
      {
        var k :| k in todo;
        UndecidedStep(old(items), todo, doomed, k);
        todo := todo - {k};
        if doomed(k) {
          Unlink(k);
          removed := removed + 1;
        }
      }
      InvalidationBalances(stats, history, |order|, types, removed);
      SoundSubmap(old(items), items, optimistic, types);
      stats := stats.(invalidated := stats.invalidated + removed);
    }

    // ----- parts of the operations -----

    /** A use of a present key: it moves to the front with its new entry. */
    method Replace(key: Key, e: Entry)
      requires Valid() && key in items && e.ttl >= 1 && (e.expiredObserved ==> optimistic)
      modifies `order, `items, `stamps, `clock
      ensures Valid() && items == old(items)[key := e] && stamps == old(stamps)[key := old(clock)]
    {
      SoundReplaced(items, optimistic, types, key, e);
      hide Balanced, Sound, ByRecency, Linked;
      LinkedSize(order, items, capacity, stamps, clock);
      MapReplaced(items, key, e);
      Unlink(key);
      PushFront(key, e);
    }

    method Insert(key: Key, e: Entry)
      requires Valid() && key !in items && |items| < capacity
      requires key.qtype < types && e.ttl >= 1 && !e.expiredObserved
      modifies `order, `items, `stamps, `clock, `history
      ensures Valid() && items == old(items)[key := e] && stamps == old(stamps)[key := old(clock)]
      ensures history == old(history).(inserts := old(history.inserts) + 1)
    {
      PushFront(key, e);
      history := history.(inserts := history.inserts + 1);
    }

    /** List and map forget the key together. */
    method Unlink(key: Key)
      requires Linked(order, items, capacity, stamps, clock) && key in items
      modifies `order, `items
      ensures Linked(order, items, capacity, stamps, clock)
      ensures items == old(items) - {key} && |order| == |old(order)| - 1
    {
      var i :| 0 <= i < |order| && order[i] == key;
      RemoveKeepsLinked(order, items, capacity, stamps, clock, i);
      order := RemoveAt(order, i);
      items := items - {key};
    }

    /** A use of an absent key puts it first. */
    method PushFront(key: Key, e: Entry)
      requires Linked(order, items, capacity, stamps, clock) && key !in items && |items| < capacity
      modifies `order, `items, `stamps, `clock
      ensures Linked(order, items, capacity, stamps, clock)
      ensures items == old(items)[key := e] && |order| == |old(order)| + 1
      ensures stamps == old(stamps)[key := old(clock)]
    {
      PushKeepsLinked(order, items, capacity, stamps, clock, key, e);
      order := [key] + order;
      items := items[key := e];
      stamps := stamps[key := clock];
      clock := clock + 1;
    }

    method RecordMiss(t: QType)
      requires Balanced(stats, history, |order|, types) && t < types
      modifies `stats, `history
      ensures Balanced(stats, history, |order|, types)
      ensures stats == CountMiss(old(stats), t)
      ensures history == old(history).(lookups := old(history.lookups) + 1)
    {
      MissBalances(stats, history, |order|, types, t);
      stats := CountMiss(stats, t);
      history := history.(lookups := history.lookups + 1);
    }

    method RecordHit(key: Key)
      requires Balanced(stats, history, |order|, types) && key in items && key.qtype < types
      modifies `stats, `history
      ensures Balanced(stats, history, |order|, types)
      ensures stats == CountHit(old(stats), items[key], key.qtype)
      ensures history == old(history).(lookups := old(history.lookups) + 1)
    {
      HitBalances(stats, history, |order|, types, items[key], key.qtype);
      stats := CountHit(stats, items[key], key.qtype);
      history := history.(lookups := history.lookups + 1);
    }

    /** The first lookup that finds an entry expired counts it. */
    method Expire(key: Key)
      requires Valid() && key in items
      modifies `order, `items, `stats, `history
      ensures Valid()
      ensures history.lookups == old(history.lookups) && history.inserts == old(history.inserts)
      ensures stats == if old(items)[key].expiredObserved then old(stats) else CountExpiration(old(stats), key.qtype)
      ensures items == if optimistic then old(items)[key := old(items)[key].(expiredObserved := true)]
                       else old(items) - {key}
    {
      if optimistic {
        MarkExpired(key);
      } else {
        DropExpired(key);
      }
    }

    method MarkExpired(key: Key)
      requires Valid() && key in items && optimistic
      modifies `items, `stats
      ensures Valid() && items == old(items)[key := old(items)[key].(expiredObserved := true)]
      ensures stats == if old(items)[key].expiredObserved then old(stats) else CountExpiration(old(stats), key.qtype)
    {
      hide Balanced, ByRecency;
      if !items[key].expiredObserved {
        ExpirationBalances(stats, history, |order|, types, key.qtype);
        stats := CountExpiration(stats, key.qtype);
      }
      items := items[key := items[key].(expiredObserved := true)];
    }

    method DropExpired(key: Key)
      requires Valid() && key in items && !optimistic
      modifies `order, `items, `stats, `history
      ensures Valid() && items == old(items) - {key}
      ensures stats == CountExpiration(old(stats), key.qtype)
      ensures history == old(history).(expiredRemoved := old(history.expiredRemoved) + 1)
    {
      assert !items[key].expiredObserved;
      hide Balanced, ByRecency;
      ExpirationBalances(stats, history, |order|, types, key.qtype);
      stats := CountExpiration(stats, key.qtype);
      Unlink(key);
      history := history.(expiredRemoved := history.expiredRemoved + 1);
    }

    /** Drops the back of the list, which is the key whose last use is the oldest. */
    method EvictOldest() returns (ghost victim: Key)
      requires Valid() && order != []
      modifies `order, `items, `stats
      ensures Valid() && |items| == |old(items)| - 1
      ensures IsOldest(old(items), stamps, victim)
      ensures items == old(items) - {victim} && stats == CountEviction(old(stats), victim.qtype)
    {
      hide Balanced, Sound, Linked, IsOldest;
      var last := order[|order| - 1];
      victim := last;
      BackIsOldest(order, items, capacity, stamps, clock);
      SoundWithout(items, optimistic, types, last);
      EvictionBalances(stats, history, |order|, types, last.qtype);
      stats := CountEviction(stats, last.qtype);
      Unlink(last);
    }
  }
}
