/** Per-client token buckets, bounded by evicting the least recently used bucket.  Times are
    seconds on one nondecreasing clock; floating-point rounding is not modelled. */
module RateLimiter {
  import opened Options

  const MAX_BUCKETS: nat := 65536

  datatype Bucket = Bucket(tokens: real, last: real)

  /** order lists the keys from the least to the most recently used. */
  datatype Buckets = Buckets(table: map<string, Bucket>, order: seq<string>)

  function Lookup(b: Buckets, key: string): Option<Bucket> {
    if key in b.table then Some(b.table[key]) else None
  }

  // ----- one bucket -----

  /** Tokens refilled in a time span. */
  function Gain(span: real, rate: real): real {
    span * rate
  }

  lemma GainSum(a: real, b: real, rate: real)
    ensures Gain(a + b, rate) == Gain(a, rate) + Gain(b, rate)
    ensures Gain(0.0, rate) == 0.0 && Gain(1.0, rate) == rate
  {
  }

  lemma GainPositive(span: real, rate: real)
    requires span >= 0.0 && rate > 0.0
    ensures Gain(span, rate) >= 0.0
  {
  }

  /** Tokens a call finds at time now: a new bucket is full, an old one refills up to one
      second's worth. */
  function Available(bucket: Option<Bucket>, rate: real, now: real): real {
    match bucket
    case None => rate
    case Some(b) => var refilled := b.tokens + Gain(now - b.last, rate); if refilled > rate then rate else refilled
  }

  function Used(bucket: Option<Bucket>, rate: real, now: real): (r: (Bucket, bool)) {
    var tokens := Available(bucket, rate, now);
    if tokens >= 1.0 then (Bucket(tokens - 1.0, now), true) else (Bucket(tokens, now), false)
  }

  // ----- the table -----

  /** The keys of the order that are in s. */
  function KeepKeys(order: seq<string>, s: set<string>): seq<string> {
    if order == [] then []
    else
      var last := order[|order| - 1];
      KeepKeys(order[..|order| - 1], s) + if last in s then [last] else []
  }

  function Without(b: Buckets, key: string): Buckets {
    Buckets(b.table - {key}, KeepKeys(b.order, b.table.Keys - {key}))
  }

  /** A call for a key: evict if a new bucket needs room, move the key to the back, take a token. */
  function Call(b: Buckets, key: string, rate: real, now: real, cap: nat): (Buckets, bool) {
    var room := if Evicts(b, key, cap) then Without(b, b.order[0]) else b;
    var (bucket, ok) := Used(Lookup(room, key), rate, now);
    var rest := Without(room, key);
    (Buckets(rest.table[key := bucket], rest.order + [key]), ok)
  }

  /** The buckets that are still to be looked at or were used since the cutoff. */
  function Survivors(table: map<string, Bucket>, left: set<string>, cutoff: real): map<string, Bucket> {
    map k | k in table && (k in left || table[k].last >= cutoff) :: table[k]
  }

  /** Buckets not used since the cutoff disappear. */
  function Cleaned(b: Buckets, cutoff: real): Buckets {
    var kept := Survivors(b.table, {}, cutoff);
    Buckets(kept, KeepKeys(b.order, kept.Keys))
  }

  ghost predicate Distinct(order: seq<string>) {
    forall i, j | 0 <= i < j < |order| :: order[i] != order[j]
  }

  ghost predicate ByAge(order: seq<string>, table: map<string, Bucket>) {
    forall i, j | 0 <= i < j < |order| && order[i] in table && order[j] in table ::
      table[order[i]].last <= table[order[j]].last
  }

  /** Table and order hold the same keys once each, in the order of their last use, and tokens
      are never negative. */
  ghost predicate Valid(b: Buckets, cap: nat, now: real) {
    && |b.order| <= cap
    && (forall k :: k in b.table <==> k in b.order)
    && Distinct(b.order) && ByAge(b.order, b.table)
    && (forall k | k in b.table :: Current(b.table[k], now))
  }

  lemma KeptKeys(order: seq<string>, s: set<string>, table: map<string, Bucket>)
    requires Distinct(order) && ByAge(order, table)
    ensures var r := KeepKeys(order, s);
            Distinct(r) && ByAge(r, table) && |r| <= |order| && forall k :: k in r <==> k in order && k in s
  {
    KeptMembers(order, s);
    KeptDistinct(order, s);
    KeptByAge(order, s, table);
  }

  lemma {:induction false} KeptMembers(order: seq<string>, s: set<string>)
    ensures var r := KeepKeys(order, s);
            |r| <= |order| && forall k :: k in r <==> k in order && k in s
  {
    if order != [] {
      KeptMembers(order[..|order| - 1], s);
    }
  }

  lemma {:induction false} KeptDistinct(order: seq<string>, s: set<string>)
    requires Distinct(order)
    ensures Distinct(KeepKeys(order, s))
  {
    if order != [] {
      var n := |order| - 1;
      KeptDistinct(order[..n], s);
      KeptMembers(order[..n], s);
    }
  }

  lemma {:induction false} KeptByAge(order: seq<string>, s: set<string>, table: map<string, Bucket>)
    requires ByAge(order, table)
    ensures ByAge(KeepKeys(order, s), table)
  {
    if order != [] {
      var n := |order| - 1;
      KeptByAge(order[..n], s, table);
      KeptMembers(order[..n], s);
      var r := KeepKeys(order[..n], s);
      forall i | 0 <= i < |r| && r[i] in table && order[n] in table ensures table[r[i]].last <= table[order[n]].last {
        assert r[i] in order[..n];
        var j :| 0 <= j < n && order[j] == r[i];
      }
    }
  }

  lemma {:induction false} KeptTwice(order: seq<string>, s: set<string>, t: set<string>)
    requires t <= s
    ensures KeepKeys(KeepKeys(order, s), t) == KeepKeys(order, t)
  {
    if order != [] {
      var n := |order| - 1;
      KeptTwice(order[..n], s, t);
      if order[n] in s {
        assert (KeepKeys(order[..n], s) + [order[n]])[..|KeepKeys(order[..n], s)|] == KeepKeys(order[..n], s);
      } else {
        assert KeepKeys(order, s) == KeepKeys(order[..n], s);
      }
    }
  }

  lemma {:induction false} KeptAll(order: seq<string>, s: set<string>)
    requires forall k | k in order :: k in s
    ensures KeepKeys(order, s) == order
  {
    if order != [] {
      KeptAll(order[..|order| - 1], s);
    }
  }

  lemma {:induction false} SameSize(order: seq<string>, keys: set<string>)
    requires Distinct(order) && forall k :: k in keys <==> k in order
    ensures |keys| == |order|
  {
    if order == [] {
      assert keys == {};
    } else {
      var n := |order| - 1;
      SameSize(order[..n], keys - {order[n]});
    }
  }

  // ----- every operation keeps the table valid -----

  lemma WithoutValid(b: Buckets, key: string, cap: nat, now: real)
    requires Valid(b, cap, now)
    ensures Valid(Without(b, key), cap, now)
    ensures |Without(b, key).order| <= |b.order| - if key in b.table then 1 else 0
  {
    hide KeepKeys;
    KeptKeys(b.order, b.table.Keys - {key}, b.table);
    var r := Without(b, key);
    Smaller(b.table, r.table, r.order);
    if key in b.table {
      SameSize(b.order, b.table.Keys);
      SameSize(r.order, b.table.Keys - {key});
    }
  }

  /** Fewer buckets in the same order are still valid. */
  lemma Smaller(table: map<string, Bucket>, kept: map<string, Bucket>, r: seq<string>)
    requires forall k | k in kept :: k in table && kept[k] == table[k]
    requires ByAge(r, table)
    ensures ByAge(r, kept)
  {
  }

  lemma WithoutLookup(b: Buckets, key: string)
    ensures forall k :: Lookup(Without(b, key), k) == if k == key then None else Lookup(b, k)
  {
  }

  /** A call keeps the table valid and within its capacity, and changes only its own bucket
      and, if the table is full, the one used longest ago. */
  lemma CallValid(b: Buckets, key: string, rate: real, now: real, cap: nat)
    requires Valid(b, cap, now) && rate > 0.0 && cap > 0
    ensures var (r, ok) := Call(b, key, rate, now, cap);
            && Valid(r, cap, now)
            && Lookup(r, key) == Some(Used(Lookup(b, key), rate, now).0)
            && ok == Used(Lookup(b, key), rate, now).1
            && r.order != [] && r.order[|r.order| - 1] == key
            && (forall k | k != key ::
                  Lookup(r, k) == if key !in b.table && |b.table| >= cap && k == b.order[0] then None else Lookup(b, k))
  {
    FullHasOldest(b, cap, now);
    hide Valid, Without, Available, Lookup;
    var room := MakeRoom(b, key, cap, now);
    var rest := Without(room, key);
    UsedBounds(Lookup(b, key), rate, now);
    var (bucket, ok) := Used(Lookup(b, key), rate, now);
    MoveToBack(rest, key, bucket, cap, now);
    LookupMoved(rest, key, bucket);
  }

  lemma LookupMoved(rest: Buckets, key: string, bucket: Bucket)
    ensures forall k :: Lookup(Buckets(rest.table[key := bucket], rest.order + [key]), k)
                        == if k == key then Some(bucket) else Lookup(rest, k)
  {
    var moved := Buckets(rest.table[key := bucket], rest.order + [key]);
    forall k ensures Lookup(moved, k) == if k == key then Some(bucket) else Lookup(rest, k) {
    }
  }

  lemma FullHasOldest(b: Buckets, cap: nat, now: real)
    requires Valid(b, cap, now) && cap > 0
    ensures |b.table| >= cap ==> b.order != []
  {
    SameSize(b.order, b.table.Keys);
  }

  /** What remains after making room for a key and taking its own bucket out. */
  lemma MakeRoom(b: Buckets, key: string, cap: nat, now: real) returns (room: Buckets)
    requires Valid(b, cap, now) && cap > 0
    ensures room == if Evicts(b, key, cap) then Without(b, b.order[0]) else b
    ensures Valid(Without(room, key), cap, now) && |Without(room, key).order| < cap && key !in Without(room, key).table
    ensures Lookup(room, key) == Lookup(b, key) && (Lookup(b, key).Some? ==> Current(Lookup(b, key).value, now))
    ensures forall k | k != key :: Lookup(Without(room, key), k)
                                   == if Evicts(b, key, cap) && k == b.order[0] then None else Lookup(b, k)
  {
    hide KeepKeys, Without;
    SameSize(b.order, b.table.Keys);
    if Evicts(b, key, cap) {
      WithoutValid(b, b.order[0], cap, now);
      WithoutLookup(b, b.order[0]);
      room := Without(b, b.order[0]);
    } else {
      room := b;
    }
    WithoutValid(room, key, cap, now);
    WithoutLookup(room, key);
    assert Lookup(Without(room, key), key) == None;
  }

  predicate Current(bucket: Bucket, now: real) {
    bucket.last <= now && bucket.tokens >= 0.0
  }

  lemma UsedBounds(x: Option<Bucket>, rate: real, now: real)
    requires rate > 0.0 && (x.Some? ==> Current(x.value, now))
    ensures var bucket := Used(x, rate, now).0; bucket.last == now && bucket.tokens >= 0.0
  {
    AvailableBounds(x, rate, now);
  }

  lemma MoveToBack(rest: Buckets, key: string, bucket: Bucket, cap: nat, now: real)
    requires Valid(rest, cap, now) && key !in rest.table && |rest.order| < cap
    requires bucket.last == now && bucket.tokens >= 0.0
    ensures Valid(Buckets(rest.table[key := bucket], rest.order + [key]), cap, now)
  {
  }

  predicate Evicts(b: Buckets, key: string, cap: nat) {
    key !in b.table && |b.table| >= cap && b.order != []
  }

  /** The evicted bucket has been idle longest. */
  lemma EvictsOldest(b: Buckets, key: string, cap: nat, now: real, k: string)
    requires Valid(b, cap, now) && Evicts(b, key, cap) && k in b.table
    ensures b.order[0] in b.table && b.table[b.order[0]].last <= b.table[k].last
  {
  }

  lemma AvailableBounds(x: Option<Bucket>, rate: real, now: real)
    requires rate > 0.0 && (x.Some? ==> Current(x.value, now))
    ensures 0.0 <= Available(x, rate, now) <= rate
  {
    hide Gain;
    if x.Some? {
      GainPositive(now - x.value.last, rate);
    }
  }

  lemma CleanedValid(b: Buckets, cutoff: real, cap: nat, now: real)
    requires Valid(b, cap, now)
    ensures Valid(Cleaned(b, cutoff), cap, now)
    ensures forall k :: Lookup(Cleaned(b, cutoff), k)
                        == if k in b.table && b.table[k].last < cutoff then None else Lookup(b, k)
  {
    hide KeepKeys;
    var r := Cleaned(b, cutoff);
    KeptKeys(b.order, r.table.Keys, b.table);
    Smaller(b.table, r.table, r.order);
  }

  // ----- runs -----

  datatype Op = DoCall(key: string, rate: real, now: real) | DoCleanup(idle: real, now: real)

  predicate Timed(ops: seq<Op>, from: real) {
    && (forall i | 0 <= i < |ops| :: ops[i].now >= from)
    && (forall i, j | 0 <= i < j < |ops| :: ops[i].now <= ops[j].now)
    && (forall i | 0 <= i < |ops| && ops[i].DoCall? :: ops[i].rate > 0.0)
  }

  function Step(b: Buckets, op: Op, cap: nat): Buckets {
    match op
    case DoCall(key, rate, now) => Call(b, key, rate, now, cap).0
    case DoCleanup(idle, now) => Cleaned(b, now - idle)
  }

  /** No call finds the table full. */
  ghost predicate Roomy(b: Buckets, ops: seq<Op>, cap: nat)
    decreases |ops|
  {
    ops != [] ==> (ops[0].DoCall? ==> !Evicts(b, ops[0].key, cap)) && Roomy(Step(b, ops[0], cap), ops[1..], cap)
  }

  /** No call evicts the key's own bucket. */
  ghost predicate KeyStays(b: Buckets, ops: seq<Op>, key: string, cap: nat)
    decreases |ops|
  {
    ops != [] ==>
      && (ops[0].DoCall? ==> !EvictsKey(b, ops[0].key, key, cap))
      && KeyStays(Step(b, ops[0], cap), ops[1..], key, cap)
  }

  predicate EvictsKey(b: Buckets, caller: string, key: string, cap: nat) {
    Evicts(b, caller, cap) && b.order[0] == key
  }

  /** The answers of the calls, in order. */
  ghost function Decisions(b: Buckets, ops: seq<Op>, cap: nat): seq<bool>
    decreases |ops|
  {
    if ops == [] then []
    else
      var rest := Decisions(Step(b, ops[0], cap), ops[1..], cap);
      match ops[0]
      case DoCall(key, rate, now) => [Call(b, key, rate, now, cap).1] + rest
      case DoCleanup(_, _) => rest
  }

  lemma StepValid(b: Buckets, op: Op, cap: nat, now: real)
    requires Valid(b, cap, now) && op.now >= now && cap > 0 && (op.DoCall? ==> op.rate > 0.0)
    ensures Valid(Step(b, op, cap), cap, op.now)
  {
    match op
    case DoCall(key, rate, t) => CallValid(b, key, rate, t, cap);
    case DoCleanup(idle, t) => CleanedValid(b, t - idle, cap, t);
  }

  // ----- cleaning up changes nothing -----

  /** A bucket that a call refills completely, like a missing one. */
  predicate Full(x: Option<Bucket>, now: real) {
    x.None? || (x.value.last + 1.0 <= now && x.value.tokens >= 0.0)
  }

  predicate AlikeAt(x: Option<Bucket>, y: Option<Bucket>, now: real) {
    x == y || (Full(x, now) && Full(y, now) && y.Some?)
  }

  ghost predicate Alike(b: Buckets, c: Buckets, now: real) {
    forall k :: AlikeAt(Lookup(b, k), Lookup(c, k), now)
  }

  lemma FullAvailable(x: Option<Bucket>, rate: real, now: real)
    requires Full(x, now) && rate > 0.0
    ensures Available(x, rate, now) == rate
  {
    hide Gain;
    if x.Some? {
      var more := now - x.value.last - 1.0;
      GainPositive(more, rate);
      GainSum(1.0, more, rate);
      assert 1.0 + more == now - x.value.last;
    }
  }

  ghost function Calls(ops: seq<Op>): seq<Op> {
    if ops == [] then [] else if ops[0].DoCall? then [ops[0]] + Calls(ops[1..]) else Calls(ops[1..])
  }

  /** Cleaning up buckets idle for a second or more never changes a later decision, as long as
      the table does not fill up without the cleanups. */
  lemma {:induction false} CleanupsChangeNothing(b: Buckets, c: Buckets, ops: seq<Op>, cap: nat, now: real)
    requires Valid(b, cap, now) && Valid(c, cap, now) && Alike(b, c, now) && Timed(ops, now) && cap > 0
    requires forall i | 0 <= i < |ops| && ops[i].DoCleanup? :: ops[i].idle >= 1.0
    requires Roomy(c, Calls(ops), cap)
    ensures Decisions(b, ops, cap) == Decisions(c, Calls(ops), cap)
    decreases |ops|
  {
    hide Valid, Alike, Call, Cleaned;
    if ops != [] {
      var op := ops[0];
      StepValid(b, op, cap, now);
      StepValid(c, op, cap, now);
      match op
      case DoCall(key, rate, t) =>
        CallAlike(b, c, key, rate, t, cap, now);
        assert Calls(ops)[1..] == Calls(ops[1..]);
        CleanupsChangeNothing(Step(b, op, cap), Step(c, op, cap), ops[1..], cap, t);
      case DoCleanup(idle, t) =>
        CleanupAlike(b, c, idle, t, cap, now);
        CleanupsChangeNothing(Step(b, op, cap), c, ops[1..], cap, t);
    }
  }

  lemma CallAlike(b: Buckets, c: Buckets, key: string, rate: real, t: real, cap: nat, now: real)
    requires Valid(b, cap, now) && Valid(c, cap, now) && Alike(b, c, now)
    requires rate > 0.0 && t >= now && cap > 0 && !Evicts(c, key, cap)
    ensures Call(b, key, rate, t, cap).1 == Call(c, key, rate, t, cap).1
    ensures Alike(Call(b, key, rate, t, cap).0, Call(c, key, rate, t, cap).0, t)
  {
    hide Call, Lookup, Valid, Used, AlikeAt;
    FullHasOldest(b, cap, now);
    FullHasOldest(c, cap, now);
    NoEviction(b, c, key, cap, now);
    ValidLater(b, cap, now, t);
    ValidLater(c, cap, now, t);
    CallValid(b, key, rate, t, cap);
    CallValid(c, key, rate, t, cap);
    SameUse(Lookup(b, key), Lookup(c, key), rate, t, now);
    forall k ensures AlikeAt(Lookup(Call(b, key, rate, t, cap).0, k), Lookup(Call(c, key, rate, t, cap).0, k), t) {
      AlikeLater(Lookup(b, k), Lookup(c, k), now, t);
    }
  }

  lemma ValidLater(b: Buckets, cap: nat, now: real, t: real)
    requires Valid(b, cap, now) && t >= now
    ensures Valid(b, cap, t)
  {
  }

  lemma SameUse(x: Option<Bucket>, y: Option<Bucket>, rate: real, t: real, now: real)
    requires AlikeAt(x, y, now) && t >= now && rate > 0.0
    ensures Used(x, rate, t) == Used(y, rate, t) && AlikeAt(Some(Used(x, rate, t).0), Some(Used(y, rate, t).0), t)
  {
    if x != y {
      FullAvailable(x, rate, t);
      FullAvailable(y, rate, t);
    }
  }

  lemma AlikeLater(x: Option<Bucket>, y: Option<Bucket>, now: real, t: real)
    requires AlikeAt(x, y, now) && t >= now
    ensures AlikeAt(x, y, t)
  {
  }

  /** With fewer buckets there is room too. */
  lemma NoEviction(b: Buckets, c: Buckets, key: string, cap: nat, now: real)
    requires Valid(c, cap, now) && Alike(b, c, now) && cap > 0 && !Evicts(c, key, cap)
    ensures !Evicts(b, key, cap)
  {
    SameSize(c.order, c.table.Keys);
    forall k | k in b.table ensures k in c.table {
      assert AlikeAt(Lookup(b, k), Lookup(c, k), now);
    }
    Subset(b.table.Keys + if key in c.table then {key} else {}, c.table.Keys);
  }

  lemma Subset(a: set<string>, b: set<string>)
    requires a <= b
    ensures |a| <= |b|
  {
    assert b == a + (b - a);
  }

  lemma CleanupAlike(b: Buckets, c: Buckets, idle: real, t: real, cap: nat, now: real)
    requires Valid(b, cap, now) && Valid(c, cap, now) && Alike(b, c, now) && t >= now && idle >= 1.0
    ensures Alike(Cleaned(b, t - idle), c, t) && Valid(c, cap, t)
  {
  }

  // ----- how many calls a window admits -----

  ghost function Admitted(b: Buckets, ops: seq<Op>, key: string, cap: nat): nat
    decreases |ops|
  {
    if ops == [] then 0
    else
      Admitted(Step(b, ops[0], cap), ops[1..], key, cap)
      + if ops[0].DoCall? && ops[0].key == key && Call(b, key, ops[0].rate, ops[0].now, cap).1 then 1 else 0
  }

  ghost function After(b: Buckets, ops: seq<Op>, cap: nat): Buckets
    decreases |ops|
  {
    if ops == [] then b else After(Step(b, ops[0], cap), ops[1..], cap)
  }

  /** How often a full table evicts the key's own bucket. */
  ghost function Evictions(b: Buckets, ops: seq<Op>, key: string, cap: nat): nat
    decreases |ops|
  {
    if ops == [] then 0
    else
      Evictions(Step(b, ops[0], cap), ops[1..], key, cap)
      + if ops[0].DoCall? && EvictsKey(b, ops[0].key, key, cap) then 1 else 0
  }

  /** A run between two times that uses one rate for the key; the table may be full and buckets
      may be evicted. */
  ghost predicate Window(b: Buckets, ops: seq<Op>, key: string, rate: real, cap: nat, from: real, to: real) {
    && Valid(b, cap, from) && Timed(ops, from) && cap > 0 && rate > 0.0 && from <= to
    && (forall i | 0 <= i < |ops| :: ops[i].now <= to)
    && (forall i | 0 <= i < |ops| && ops[i].DoCall? && ops[i].key == key :: ops[i].rate == rate)
    && (forall i | 0 <= i < |ops| && ops[i].DoCleanup? :: ops[i].idle >= 1.0)
  }

  lemma WindowStep(b: Buckets, ops: seq<Op>, key: string, rate: real, cap: nat, from: real, to: real)
    requires Window(b, ops, key, rate, cap, from, to) && ops != []
    ensures Window(Step(b, ops[0], cap), ops[1..], key, rate, cap, ops[0].now, to)
  {
    hide Valid, Step;
    StepValid(b, ops[0], cap, from);
  }

  /** Within any window of length d, a key is admitted at most rate * (1 + d) times, and rate more
      for each time a full table evicts its bucket, whatever other keys and cleanups do. */
  lemma WindowBound(b: Buckets, ops: seq<Op>, key: string, rate: real, cap: nat, from: real, to: real)
    requires Window(b, ops, key, rate, cap, from, to)
    ensures Admitted(b, ops, key, cap) as real <= (1.0 + (to - from) + Evictions(b, ops, key, cap) as real) * rate
    ensures KeyStays(b, ops, key, cap) ==> Admitted(b, ops, key, cap) as real <= (1.0 + (to - from)) * rate
  {
    NoEvictions(b, ops, key, cap);
    hide KeyStays, Valid, After, Admitted, Evictions, Available, Lookup, Timed;
    var e := Evictions(b, ops, key, cap) as real;
    AdmittedAndLeft(b, ops, key, rate, cap, from, to);
    KeyBounds(b, key, rate, cap, from);
    GainSum(1.0, to - from, rate);
    GainSum(1.0 + (to - from), e, rate);
  }

  /** A run in which the key keeps its bucket is one without evictions of it. */
  lemma {:induction false} NoEvictions(b: Buckets, ops: seq<Op>, key: string, cap: nat)
    ensures KeyStays(b, ops, key, cap) <==> Evictions(b, ops, key, cap) == 0
    decreases |ops|
  {
    if ops != [] {
      NoEvictions(Step(b, ops[0], cap), ops[1..], key, cap);
    }
  }

  /** Admitted calls and tokens left over are what was there and what was refilled, as far as the
      bucket had room for it, and up to a full bucket more for each eviction. */
  lemma {:induction false} AdmittedAndLeft(b: Buckets, ops: seq<Op>, key: string, rate: real, cap: nat, from: real, to: real)
    requires Window(b, ops, key, rate, cap, from, to)
    ensures var left := Available(Lookup(After(b, ops, cap), key), rate, to);
            var had := Available(Lookup(b, key), rate, from) + Gain(to - from, rate);
            && Valid(After(b, ops, cap), cap, to) && left >= 0.0
            && Capped(had, rate) <= Admitted(b, ops, key, cap) as real + left
               <= had + Gain(Evictions(b, ops, key, cap) as real, rate)
    decreases |ops|
  {
    hide Available, Step, Call, Lookup, EvictsKey, Gain;
    if ops == [] {
      GainSum(0.0, 0.0, rate);
      Refill(Lookup(b, key), rate, from, to);
      KeyBounds(b, key, rate, cap, to);
    } else {
      var op := ops[0];
      WindowStep(b, ops, key, rate, cap, from, to);
      StepOrEviction(b, op, key, rate, cap, from);
      AdmittedAndLeft(Step(b, op, cap), ops[1..], key, rate, cap, op.now, to);
      GainSum(to - op.now, op.now - from, rate);
      assert (to - op.now) + (op.now - from) == to - from;
      GainSum(Evictions(Step(b, op, cap), ops[1..], key, cap) as real, 1.0, rate);
      GainPositive(to - op.now, rate);
    }
  }

  /** One step in which the key's bucket may be evicted, and is then full again. */
  lemma StepOrEviction(b: Buckets, op: Op, key: string, rate: real, cap: nat, from: real)
    requires Valid(b, cap, from) && op.now >= from && cap > 0 && rate > 0.0
    requires op.DoCall? ==> op.rate > 0.0 && (op.key == key ==> op.rate == rate)
    requires op.DoCleanup? ==> op.idle >= 1.0
    ensures Available(Lookup(Step(b, op, cap), key), rate, op.now)
            + (if op.DoCall? && op.key == key && Call(b, key, op.rate, op.now, cap).1 then 1.0 else 0.0)
            <= Available(Lookup(b, key), rate, from) + Gain(op.now - from, rate)
               + (if op.DoCall? && EvictsKey(b, op.key, key, cap) then rate else 0.0)
    ensures Available(Lookup(Step(b, op, cap), key), rate, op.now)
            + (if op.DoCall? && op.key == key && Call(b, key, op.rate, op.now, cap).1 then 1.0 else 0.0)
            >= Capped(Available(Lookup(b, key), rate, from) + Gain(op.now - from, rate), rate)
  {
    if op.DoCall? && EvictsKey(b, op.key, key, cap) {
      EvictedIsOther(b, op.key, key, cap, from);
      ValidLater(b, cap, from, op.now);
      CallValid(b, op.key, op.rate, op.now, cap);
      KeyBounds(b, key, rate, cap, from);
      hide Call, Gain;
      GainPositive(op.now - from, rate);
    } else {
      StepCredit(b, op, key, rate, cap, from);
    }
  }

  lemma EvictedIsOther(b: Buckets, caller: string, key: string, cap: nat, now: real)
    requires Valid(b, cap, now) && EvictsKey(b, caller, key, cap)
    ensures caller != key
  {
  }

  /** A call is refused only if more than rate - 1 calls were admitted in the second before. */
  lemma RefusedOnlyWhenSpent(b: Buckets, ops: seq<Op>, key: string, rate: real, cap: nat, from: real, to: real)
    requires Window(b, ops, key, rate, cap, from, to) && to - from >= 1.0
    requires !Call(After(b, ops, cap), key, rate, to, cap).1
    ensures Admitted(b, ops, key, cap) as real > rate - 1.0
  {
    hide Valid, After, Call, Admitted, Available, Lookup, Gain, Evictions, Timed;
    AdmittedAndLeft(b, ops, key, rate, cap, from, to);
    KeyBounds(b, key, rate, cap, from);
    GainSum(1.0, to - from - 1.0, rate);
    GainPositive(to - from - 1.0, rate);
    assert 1.0 + (to - from - 1.0) == to - from;
    CallValid(After(b, ops, cap), key, rate, to, cap);
  }

  function Capped(x: real, rate: real): real {
    if x > rate then rate else x
  }

  lemma KeyBounds(b: Buckets, key: string, rate: real, cap: nat, now: real)
    requires Valid(b, cap, now) && rate > 0.0
    ensures 0.0 <= Available(Lookup(b, key), rate, now) <= rate
  {
    AvailableBounds(Lookup(b, key), rate, now);
  }

  lemma Refill(x: Option<Bucket>, rate: real, from: real, now: real)
    requires rate > 0.0 && from <= now
    ensures Available(x, rate, now) == Capped(Available(x, rate, from) + Gain(now - from, rate), rate)
  {
    hide Gain;
    GainPositive(now - from, rate);
    if x.Some? {
      GainSum(from - x.value.last, now - from, rate);
      assert (from - x.value.last) + (now - from) == now - x.value.last;
    }
  }

  /** One step takes a token for an admitted call of the key and otherwise only lets time pass. */
  lemma StepCredit(b: Buckets, op: Op, key: string, rate: real, cap: nat, from: real)
    requires Valid(b, cap, from) && op.now >= from && cap > 0 && rate > 0.0
    requires op.DoCall? ==> op.rate > 0.0 && !EvictsKey(b, op.key, key, cap) && (op.key == key ==> op.rate == rate)
    requires op.DoCleanup? ==> op.idle >= 1.0
    ensures Available(Lookup(Step(b, op, cap), key), rate, op.now)
            + (if op.DoCall? && op.key == key && Call(b, key, op.rate, op.now, cap).1 then 1.0 else 0.0)
            == Capped(Available(Lookup(b, key), rate, from) + Gain(op.now - from, rate), rate)
  {
    hide Call, Gain;
    Refill(Lookup(b, key), rate, from, op.now);
    match op
    case DoCall(k, r, t) =>
      CallValid(b, k, r, t, cap);
      if k == key {
        KeyBounds(b, key, rate, cap, t);
        assert Used(Lookup(b, key), rate, t).0.last == t;
        Stay(Used(Lookup(b, key), rate, t).0, rate, t);
      }
    case DoCleanup(idle, t) =>
      CleanedValid(b, t - idle, cap, from);
      if Lookup(Cleaned(b, t - idle), key) != Lookup(b, key) {
        FullAvailable(Lookup(b, key), rate, t);
      }
  }

  lemma Stay(bucket: Bucket, rate: real, now: real)
    requires bucket.last == now && bucket.tokens <= rate
    ensures Available(Some(bucket), rate, now) == bucket.tokens
  {
  }

  // ----- the limiter -----

  lemma DropFirst(order: seq<string>, s: set<string>)
    requires Distinct(order) && order != [] && forall k | k in order :: k in s
    ensures KeepKeys(order, s - {order[0]}) == order[1..]
  {
  }

  lemma {:induction false} KeepConcat(a: seq<string>, b: seq<string>, s: set<string>)
    ensures KeepKeys(a + b, s) == KeepKeys(a, s) + KeepKeys(b, s)
  {
    if b == [] {
      assert a + b == a;
    } else {
      var n := |b| - 1;
      KeepConcat(a, b[..n], s);
      assert (a + b)[..|a| + n] == a + b[..n];
    }
  }

  class Limiter {
    const maxBuckets: nat
    var table: map<string, Bucket>
    var order: seq<string>

    ghost function View(): Buckets
      reads this
    {
      Buckets(table, order)
    }

    constructor (ghost now: real)
      ensures Valid(View(), maxBuckets, now) && View() == Buckets(map[], []) && maxBuckets == MAX_BUCKETS
    {
      maxBuckets := MAX_BUCKETS;
      table, order := map[], [];
    }

    /** One query of a client; no limit applies without a rate or a recognisable address. */
    method AllowAtRate(client: Option<string>, qps: int, now: real) returns (ok: bool)
      requires Valid(View(), maxBuckets, now) && maxBuckets > 0
      modifies this
      ensures qps <= 0 || client.None? ==> ok && View() == old(View())
      ensures qps > 0 && client.Some? ==> (View(), ok) == Call(old(View()), client.value, qps as real, now, maxBuckets)
      ensures Valid(View(), maxBuckets, now)
    {
      if qps <= 0 || client.None? {
        return true;
      }
      var key, rate := client.value, qps as real;
      CallValid(View(), key, rate, now, maxBuckets);
      hide Valid, Used, KeepKeys;
      ghost var room := View();
      var found := key in table;
      if !found {
        Members(View(), maxBuckets, now);
        if |table| >= maxBuckets && order != [] {
          EvictFront(View(), maxBuckets, now);
          table, order := table - {order[0]}, order[1..];
          room := View();
        }
        TakeOut(View(), key);
      }
      var (bucket, admitted) := Used(if found then Some(table[key]) else None, rate, now);
      order := (if found then KeepKeys(order, table.Keys - {key}) else order) + [key];
      table := table[key := bucket];
      assert Without(room, key).table[key := bucket] == table;
      ok := admitted;
    }

    /** Removes every bucket idle for longer than the given time. */
    method Cleanup(idle: real, now: real)
      requires Valid(View(), maxBuckets, now)
      modifies this
      ensures View() == Cleaned(old(View()), now - idle)
      ensures Valid(View(), maxBuckets, now)
    {
      hide Valid, KeepKeys, Survivors;
      var cutoff := now - idle;
      ghost var b := View();
      BeforeCleaning(b, cutoff, maxBuckets, now);
      var left := table.Keys;
      while left != {}
        invariant left <= b.table.Keys
        invariant table == Survivors(b.table, left, cutoff) && order == KeepKeys(b.order, table.Keys)
      {
        var k :| k in left;
        SurvivorStep(b.table, left, cutoff, k);
        if table[k].last < cutoff {
          KeptTwice(b.order, table.Keys, table.Keys - {k});
          table, order := table - {k}, KeepKeys(order, table.Keys - {k});
        }
        left := left - {k};
      }
    }
  }

  lemma BeforeCleaning(b: Buckets, cutoff: real, cap: nat, now: real)
    requires Valid(b, cap, now)
    ensures Survivors(b.table, b.table.Keys, cutoff) == b.table && KeepKeys(b.order, b.table.Keys) == b.order
    ensures Valid(Cleaned(b, cutoff), cap, now)
  {
    CleanedValid(b, cutoff, cap, now);
    KeptAll(b.order, b.table.Keys);
  }

  lemma SurvivorStep(table: map<string, Bucket>, left: set<string>, cutoff: real, k: string)
    requires k in left && left <= table.Keys
    ensures var before, after := Survivors(table, left, cutoff), Survivors(table, left - {k}, cutoff);
            && k in before && before[k] == table[k]
            && after == (if table[k].last < cutoff then before - {k} else before)
            && (before - {k}).Keys == before.Keys - {k}
  {
  }

  lemma Members(b: Buckets, cap: nat, now: real)
    requires Valid(b, cap, now)
    ensures forall k | k in b.order :: k in b.table
    ensures b.order != [] ==> forall k | k in b.order[1..] :: k in b.table - {b.order[0]}
  {
  }

  lemma EvictFront(b: Buckets, cap: nat, now: real)
    requires Valid(b, cap, now) && b.order != []
    ensures Without(b, b.order[0]) == Buckets(b.table - {b.order[0]}, b.order[1..])
  {
    DropFirst(b.order, b.table.Keys);
  }

  /** Taking out a key that has no bucket changes nothing. */
  lemma TakeOut(b: Buckets, key: string)
    requires key !in b.table && forall k | k in b.order :: k in b.table
    ensures Without(b, key) == b
  {
    KeptAll(b.order, b.table.Keys - {key});
  }
}
