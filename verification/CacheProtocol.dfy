/** How concurrent queries, background refreshes and invalidations share the cache.

    Each step is one lock-protected region or one atomic access.  An invalidation is two
    steps, the generation bump and the purge, with the mutation lock held in between;
    publishing needs that lock.  A logical clock and a log of invalidations record when
    things happened; no step reads them. */
module CacheProtocol {
  type Key = nat
  type Message = nat
  type Id = nat

  const MAX_FLIGHTS: nat := 1024
  const MAX_REFRESHES: nat := 64

  /** A fetch remembers the generation it loaded; start is the time of that load. */
  datatype Fetch = Fetch(generation: nat, start: nat)

  datatype Invalidation = Invalidation(generation: nat, at: nat, covers: iset<Key>)

  datatype Entry = Entry(message: Message, start: nat)

  datatype Request =
    | Missed(key: Key, fetch: Fetch)
    | Leading(key: Key, fetch: Fetch, flight: Id)
    | Completing(key: Key, flight: Id, message: Message)
    | Waiting(key: Key, flight: Id)
    | Done(key: Key, flight: Id, message: Message)
    | Rejected(key: Key)

  datatype Refresh =
    | Slotted(key: Key, fetch: Fetch)
    | Running(key: Key, fetch: Fetch)
    | Releasing(key: Key)

  /** The shared cache with its generation, and whether a purge is still due. */
  datatype Shared = Shared(generation: nat, purging: bool, cache: map<Key, Entry>,
                           now: nat, log: seq<Invalidation>)

  /** The miss flight table, the results of finished flights, and the queries. */
  datatype Flights = Flights(table: map<Key, Id>, results: map<Id, Message>, requests: map<Id, Request>, next: Id)

  /** The keys being refreshed and the refreshes themselves. */
  datatype Refreshes = Refreshes(keys: set<Key>, active: map<Id, Refresh>)

  datatype State = State(shared: Shared, flights: Flights, refreshes: Refreshes)

  const Initial := State(Shared(0, false, map[], 0, []), Flights(map[], map[], map[], 0), Refreshes({}, map[]))

  // ----- the steps -----

  function NewFetch(c: Shared): Fetch {
    Fetch(c.generation, c.now)
  }

  function Tick(c: Shared): Shared {
    c.(now := c.now + 1)
  }

  /** Publishing stores only at the generation the fetch loaded. */
  function Store(c: Shared, key: Key, fetch: Fetch, message: Message, cacheable: bool): Shared {
    if fetch.generation == c.generation && cacheable
    then c.(cache := c.cache[key := Entry(message, fetch.start)])
    else c
  }

  /** The bump makes every fetch already under way unable to publish. */
  function Bump(c: Shared, covers: iset<Key>): Shared {
    c.(generation := c.generation + 1, purging := true,
       log := c.log + [Invalidation(c.generation + 1, c.now + 1, covers)])
  }

  function Purge(c: Shared): Shared
    requires c.log != []
  {
    var covers := c.log[|c.log| - 1].covers;
    c.(purging := false, cache := map k | k in c.cache && k !in covers :: c.cache[k])
  }

  /** One leader per key, followers behind it, and a bounded table. */
  function BeginFlight(f: Flights, r: Id, key: Key, fetch: Fetch): Flights {
    if key in f.table then f.(requests := f.requests[r := Waiting(key, f.table[key])])
    else if |f.table| >= MAX_FLIGHTS then f.(requests := f.requests[r := Rejected(key)])
    else f.(requests := f.requests[r := Leading(key, fetch, f.next)],
            table := f.table[key := f.next], next := f.next + 1)
  }

  function CompleteFlight(f: Flights, r: Id, key: Key, flight: Id, message: Message): Flights {
    f.(requests := f.requests[r := Done(key, flight, message)],
       results := f.results[flight := message], table := f.table - {key})
  }

  function SlotHolders(a: map<Id, Refresh>): set<Id> {
    set i | i in a && !a[i].Releasing?
  }

  datatype Step =
    | Miss(r: Id, key: Key)
    | Begin(r: Id)
    | PublishMiss(r: Id, message: Message, cacheable: bool)
    | Complete(r: Id)
    | Wake(r: Id)
    | StartRefresh(i: Id, key: Key)
    | EnterRefresh(i: Id)
    | PublishRefresh(i: Id, message: Message, cacheable: bool)
    | ForgetRefresh(i: Id)
    | StartInvalidation(covers: iset<Key>)
    | FinishInvalidation
    | Evict(key: Key)

  ghost predicate Enabled(s: State, step: Step) {
    var c, req, act := s.shared, s.flights.requests, s.refreshes.active;
    match step
    case Miss(r, _) => r !in req
    case Begin(r) => r in req && req[r].Missed?
    case PublishMiss(r, _, _) => r in req && req[r].Leading? && !c.purging
    case Complete(r) => r in req && req[r].Completing?
    case Wake(r) => r in req && req[r].Waiting? && req[r].flight in s.flights.results
    case StartRefresh(i, _) => i !in act && |SlotHolders(act)| < MAX_REFRESHES
    case EnterRefresh(i) => i in act && act[i].Slotted?
    case PublishRefresh(i, _, _) => i in act && act[i].Running? && !c.purging
    case ForgetRefresh(i) => i in act && act[i].Releasing?
    case StartInvalidation(_) => !c.purging
    case FinishInvalidation => c.purging && c.log != []
    case Evict(_) => true
  }

  ghost function SharedAfter(s: State, step: Step): Shared
    requires Enabled(s, step)
  {
    var c, req, act := s.shared, s.flights.requests, s.refreshes.active;
    match step
    case PublishMiss(r, message, cacheable) => Store(c, req[r].key, req[r].fetch, message, cacheable)
    case PublishRefresh(i, message, cacheable) => Store(c, act[i].key, act[i].fetch, message, cacheable)
    case StartInvalidation(covers) => Bump(c, covers)
    case FinishInvalidation => Purge(c)
    case Evict(key) => c.(cache := c.cache - {key})
    case _ => c
  }

  ghost function FlightsAfter(s: State, step: Step): Flights
    requires Enabled(s, step)
  {
    var f := s.flights;
    match step
    case Miss(r, key) => f.(requests := f.requests[r := Missed(key, NewFetch(s.shared))])
    case Begin(r) => BeginFlight(f, r, f.requests[r].key, f.requests[r].fetch)
    case PublishMiss(r, message, _) =>
      f.(requests := f.requests[r := Completing(f.requests[r].key, f.requests[r].flight, message)])
    case Complete(r) => CompleteFlight(f, r, f.requests[r].key, f.requests[r].flight, f.requests[r].message)
    case Wake(r) =>
      var flight := f.requests[r].flight;
      f.(requests := f.requests[r := Done(f.requests[r].key, flight, f.results[flight])])
    case _ => f
  }

  /** The slot is given back before the key is forgotten. */
  ghost function RefreshesAfter(s: State, step: Step): Refreshes
    requires Enabled(s, step)
  {
    var b := s.refreshes;
    match step
    case StartRefresh(i, key) => b.(active := b.active[i := Slotted(key, NewFetch(s.shared))])
    case EnterRefresh(i) =>
      var key := b.active[i].key;
      if key in b.keys then b.(active := b.active - {i})
      else Refreshes(b.keys + {key}, b.active[i := Running(key, b.active[i].fetch)])
    case PublishRefresh(i, _, _) => b.(active := b.active[i := Releasing(b.active[i].key)])
    case ForgetRefresh(i) => Refreshes(b.keys - {b.active[i].key}, b.active - {i})
    case _ => b
  }

  /** A step that is not enabled does nothing. */
  ghost function Apply(s: State, step: Step): State {
    if Enabled(s, step) then State(Tick(SharedAfter(s, step)), FlightsAfter(s, step), RefreshesAfter(s, step)) else s
  }

  // ----- freshness -----

  /** The generation orders a fetch and the invalidations as the clock does. */
  ghost predicate Ordered(f: Fetch, c: Shared) {
    && f.generation <= c.generation && f.start <= c.now
    && forall i | 0 <= i < |c.log| :: c.log[i].at > f.start <==> c.log[i].generation > f.generation
  }

  /** No invalidation that covers the key began after the entry's fetch; only one whose
      purge is still due may. */
  ghost predicate FreshEntry(c: Shared, key: Key, e: Entry) {
    forall i | 0 <= i < |c.log| :: c.log[i].at > e.start && key in c.log[i].covers ==>
                                     c.purging && i == |c.log| - 1
  }

  ghost predicate SharedInv(c: Shared) {
    && (c.purging ==> c.log != [])
    && c.generation == |c.log|
    && (forall i | 0 <= i < |c.log| :: c.log[i].generation == i + 1 && c.log[i].at <= c.now)
    && (forall k | k in c.cache :: FreshEntry(c, k, c.cache[k]))
  }

  ghost predicate FetchesOrdered(s: State) {
    && (forall r | r in s.flights.requests && (s.flights.requests[r].Missed? || s.flights.requests[r].Leading?) ::
          Ordered(s.flights.requests[r].fetch, s.shared))
    && (forall i | i in s.refreshes.active && !s.refreshes.active[i].Releasing? ::
          Ordered(s.refreshes.active[i].fetch, s.shared))
  }

  lemma StoreKeepsFresh(c: Shared, key: Key, f: Fetch, message: Message, cacheable: bool)
    requires SharedInv(c) && Ordered(f, c) && !c.purging
    ensures SharedInv(Tick(Store(c, key, f, message, cacheable)))
  {
  }

  /** A cacheable result is stored exactly if no invalidation, of whatever keys, began after
      its fetch. */
  lemma StoredIff(c: Shared, key: Key, f: Fetch, message: Message)
    requires SharedInv(c) && Ordered(f, c)
    ensures Store(c, key, f, message, true).cache
            == if forall i | 0 <= i < |c.log| :: c.log[i].at <= f.start then c.cache[key := Entry(message, f.start)]
               else c.cache
  {
    if f.generation < c.generation {
      assert c.log[|c.log| - 1].at > f.start;
    }
  }

  lemma BumpKeepsFresh(c: Shared, covers: iset<Key>)
    requires SharedInv(c) && !c.purging
    ensures SharedInv(Tick(Bump(c, covers)))
  {
  }

  lemma PurgeKeepsFresh(c: Shared)
    requires SharedInv(c) && c.purging && c.log != []
    ensures SharedInv(Tick(Purge(c)))
  {
  }

  lemma EvictKeepsFresh(c: Shared, key: Key)
    requires SharedInv(c)
    ensures SharedInv(Tick(c.(cache := c.cache - {key}))) && SharedInv(Tick(c))
  {
  }

  lemma SharedStep(s: State, step: Step)
    requires SharedInv(s.shared) && FetchesOrdered(s) && Enabled(s, step)
    ensures SharedInv(Tick(SharedAfter(s, step)))
  {
    match step
    case PublishMiss(r, message, cacheable) =>
      var q := s.flights.requests[r];
      StoreKeepsFresh(s.shared, q.key, q.fetch, message, cacheable);
    case PublishRefresh(i, message, cacheable) =>
      var q := s.refreshes.active[i];
      StoreKeepsFresh(s.shared, q.key, q.fetch, message, cacheable);
    case StartInvalidation(covers) => BumpKeepsFresh(s.shared, covers);
    case FinishInvalidation => PurgeKeepsFresh(s.shared);
    case Evict(key) => EvictKeepsFresh(s.shared, key);
    case _ => EvictKeepsFresh(s.shared, 0);
  }

  lemma OrderedStep(s: State, step: Step, f: Fetch)
    requires SharedInv(s.shared) && Enabled(s, step) && (Ordered(f, s.shared) || f == NewFetch(s.shared))
    ensures Ordered(f, Tick(SharedAfter(s, step)))
  {
  }

  lemma FetchesStep(s: State, step: Step)
    requires SharedInv(s.shared) && FetchesOrdered(s) && Enabled(s, step)
    ensures FetchesOrdered(Apply(s, step))
  {
    var s' := Apply(s, step);
    forall r | r in s'.flights.requests && (s'.flights.requests[r].Missed? || s'.flights.requests[r].Leading?)
      ensures Ordered(s'.flights.requests[r].fetch, s'.shared)
    {
      OrderedStep(s, step, s'.flights.requests[r].fetch);
    }
    forall i | i in s'.refreshes.active && !s'.refreshes.active[i].Releasing?
      ensures Ordered(s'.refreshes.active[i].fetch, s'.shared)
    {
      OrderedStep(s, step, s'.refreshes.active[i].fetch);
    }
  }

  // ----- miss flights -----

  /** Responsible for finishing its flight. */
  predicate IsLeader(q: Request) {
    q.Leading? || q.Completing?
  }

  predicate Incomplete(f: Flights, flight: Id) {
    exists k :: k in f.table && f.table[k] == flight
  }

  /** A flight is in the table, under one key, exactly while it is incomplete. */
  ghost predicate TableInv(f: Flights) {
    && |f.table| <= MAX_FLIGHTS
    && (forall k | k in f.table :: f.table[k] < f.next && f.table[k] !in f.results)
    && (forall x | x in f.results :: x < f.next)
    && (forall k, k' | k in f.table && k' in f.table && k != k' :: f.table[k] != f.table[k'])
  }

  ghost predicate HasLeader(f: Flights, k: Key) {
    exists r :: r in f.requests && IsLeader(f.requests[r]) && f.requests[r].key == k
  }

  /** Every flight in the table has exactly one leader, and leaders lead nothing else. */
  ghost predicate LeadersInv(f: Flights) {
    && (forall k | k in f.table :: HasLeader(f, k))
    && (forall r | r in f.requests && IsLeader(f.requests[r]) ::
          f.requests[r].key in f.table && f.table[f.requests[r].key] == f.requests[r].flight)
    && (forall r, r' | r in f.requests && r' in f.requests && r != r'
                       && IsLeader(f.requests[r]) && IsLeader(f.requests[r']) ::
          f.requests[r].key != f.requests[r'].key)
  }

  /** Followers wait for a known flight, and whoever is done has its flight's own result. */
  ghost predicate FollowersInv(f: Flights) {
    && (forall r | r in f.requests && f.requests[r].Waiting? ::
          f.requests[r].flight in f.results || Incomplete(f, f.requests[r].flight))
    && (forall r | r in f.requests && f.requests[r].Done? ::
          f.requests[r].flight in f.results && f.results[f.requests[r].flight] == f.requests[r].message)
  }

  ghost predicate FlightsInv(f: Flights) {
    TableInv(f) && LeadersInv(f) && FollowersInv(f)
  }

  /** A step that changes one request into one that neither leads nor led. */
  lemma BystanderStep(f: Flights, r: Id, q: Request)
    requires FlightsInv(f) && !IsLeader(q) && (r in f.requests ==> !IsLeader(f.requests[r]))
    requires q.Waiting? ==> q.flight in f.results || Incomplete(f, q.flight)
    requires q.Done? ==> q.flight in f.results && f.results[q.flight] == q.message
    ensures FlightsInv(f.(requests := f.requests[r := q]))
  {
    BystanderKeepsLeaders(f, r, q);
    forall x | Incomplete(f, x) ensures Incomplete(f.(requests := f.requests[r := q]), x) {
      var k :| k in f.table && f.table[k] == x;
      assert k in f.table;
    }
  }

  lemma BystanderKeepsLeaders(f: Flights, r: Id, q: Request)
    requires LeadersInv(f) && !IsLeader(q) && (r in f.requests ==> !IsLeader(f.requests[r]))
    ensures LeadersInv(f.(requests := f.requests[r := q]))
  {
    var f' := f.(requests := f.requests[r := q]);
    forall k | k in f'.table ensures HasLeader(f', k) {
      assert HasLeader(f, k);
      var l :| l in f.requests && IsLeader(f.requests[l]) && f.requests[l].key == k;
      assert l in f'.requests && f'.requests[l] == f.requests[l];
    }
  }

  /** A leader that has published still leads. */
  lemma PublishedStep(f: Flights, r: Id, message: Message)
    requires FlightsInv(f) && r in f.requests && f.requests[r].Leading?
    ensures var q := f.requests[r];
            FlightsInv(f.(requests := f.requests[r := Completing(q.key, q.flight, message)]))
  {
    PublishedKeepsLeaders(f, r, message);
    forall x | Incomplete(f, x)
      ensures Incomplete(f.(requests := f.requests[r := Completing(f.requests[r].key, f.requests[r].flight, message)]), x)
    {
      var k :| k in f.table && f.table[k] == x;
      assert k in f.table;
    }
  }

  lemma PublishedKeepsLeaders(f: Flights, r: Id, message: Message)
    requires LeadersInv(f) && r in f.requests && f.requests[r].Leading?
    ensures var q := f.requests[r];
            LeadersInv(f.(requests := f.requests[r := Completing(q.key, q.flight, message)]))
  {
    var q := f.requests[r];
    var f' := f.(requests := f.requests[r := Completing(q.key, q.flight, message)]);
    forall k | k in f'.table ensures HasLeader(f', k) {
      assert HasLeader(f, k);
      var l :| l in f.requests && IsLeader(f.requests[l]) && f.requests[l].key == k;
      assert l in f'.requests && IsLeader(f'.requests[l]) && f'.requests[l].key == k;
    }
  }

  lemma BeginStep(f: Flights, r: Id)
    requires FlightsInv(f) && r in f.requests && f.requests[r].Missed?
    ensures FlightsInv(BeginFlight(f, r, f.requests[r].key, f.requests[r].fetch))
  {
    var key := f.requests[r].key;
    var f' := BeginFlight(f, r, key, f.requests[r].fetch);
    if key in f.table {
      BystanderStep(f, r, Waiting(key, f.table[key]));
    } else if |f.table| >= MAX_FLIGHTS {
      BystanderStep(f, r, Rejected(key));
    } else {
      LeadStep(f, r, key, f.requests[r].fetch);
    }
  }

  /** Taking the lead of an absent key adds one flight with one leader. */
  lemma LeadStep(f: Flights, r: Id, key: Key, fetch: Fetch)
    requires FlightsInv(f) && r in f.requests && f.requests[r].Missed?
    requires key !in f.table && |f.table| < MAX_FLIGHTS
    ensures FlightsInv(BeginFlight(f, r, key, fetch))
  {
    LeadKeepsTable(f, r, key, fetch);
    LeadKeepsLeaders(f, r, key, fetch);
    LeadKeepsFollowers(f, r, key, fetch);
    hide TableInv, LeadersInv, FollowersInv, BeginFlight;
  }

  lemma LeadKeepsTable(f: Flights, r: Id, key: Key, fetch: Fetch)
    requires TableInv(f) && key !in f.table && |f.table| < MAX_FLIGHTS
    ensures TableInv(BeginFlight(f, r, key, fetch))
  {
  }

  lemma LeadKeepsLeaders(f: Flights, r: Id, key: Key, fetch: Fetch)
    requires TableInv(f) && LeadersInv(f) && r in f.requests && f.requests[r].Missed?
    requires key !in f.table && |f.table| < MAX_FLIGHTS
    ensures LeadersInv(BeginFlight(f, r, key, fetch))
  {
    var f' := BeginFlight(f, r, key, fetch);
    forall k | k in f'.table ensures HasLeader(f', k) {
      if k == key {
        assert IsLeader(f'.requests[r]) && f'.requests[r].key == key;
      } else {
        assert HasLeader(f, k);
        var l :| l in f.requests && IsLeader(f.requests[l]) && f.requests[l].key == k;
        assert l in f'.requests && f'.requests[l] == f.requests[l];
      }
    }
  }

  lemma LeadKeepsFollowers(f: Flights, r: Id, key: Key, fetch: Fetch)
    requires FollowersInv(f) && r in f.requests && f.requests[r].Missed?
    requires key !in f.table && |f.table| < MAX_FLIGHTS
    ensures FollowersInv(BeginFlight(f, r, key, fetch))
  {
    var f' := BeginFlight(f, r, key, fetch);
    forall x | Incomplete(f, x) ensures Incomplete(f', x) {
      var k :| k in f.table && f.table[k] == x;
      assert k in f'.table && f'.table[k] == x;
    }
  }

  lemma CompleteStep(f: Flights, r: Id)
    requires FlightsInv(f) && r in f.requests && f.requests[r].Completing?
    ensures var q := f.requests[r]; FlightsInv(CompleteFlight(f, r, q.key, q.flight, q.message))
  {
    CompleteKeepsTable(f, r);
    CompleteKeepsLeaders(f, r);
    CompleteKeepsFollowers(f, r);
  }

  lemma CompleteKeepsTable(f: Flights, r: Id)
    requires TableInv(f) && LeadersInv(f) && r in f.requests && f.requests[r].Completing?
    ensures var q := f.requests[r]; TableInv(CompleteFlight(f, r, q.key, q.flight, q.message))
  {
    assert f.requests[r].key in f.table;
  }

  lemma CompleteKeepsLeaders(f: Flights, r: Id)
    requires LeadersInv(f) && r in f.requests && f.requests[r].Completing?
    ensures var q := f.requests[r]; LeadersInv(CompleteFlight(f, r, q.key, q.flight, q.message))
  {
    var q := f.requests[r];
    var f' := CompleteFlight(f, r, q.key, q.flight, q.message);
    forall k | k in f'.table ensures HasLeader(f', k) {
      assert HasLeader(f, k);
      var l :| l in f.requests && IsLeader(f.requests[l]) && f.requests[l].key == k;
      assert l != r && l in f'.requests && f'.requests[l] == f.requests[l];
    }
  }

  lemma CompleteKeepsFollowers(f: Flights, r: Id)
    requires FlightsInv(f) && r in f.requests && f.requests[r].Completing?
    ensures var q := f.requests[r]; FollowersInv(CompleteFlight(f, r, q.key, q.flight, q.message))
  {
    var q := f.requests[r];
    var f' := CompleteFlight(f, r, q.key, q.flight, q.message);
    assert f.table[q.key] == q.flight && q.flight !in f.results;
    forall x | Incomplete(f, x) && x != q.flight ensures Incomplete(f', x) {
      var k :| k in f.table && f.table[k] == x;
      assert k in f'.table && f'.table[k] == x;
    }
  }

  lemma FlightsStep(s: State, step: Step)
    requires FlightsInv(s.flights) && Enabled(s, step)
    ensures FlightsInv(FlightsAfter(s, step))
  {
    var f := s.flights;
    match step
    case Miss(r, key) => BystanderStep(f, r, Missed(key, NewFetch(s.shared)));
    case Begin(r) => BeginStep(f, r);
    case PublishMiss(r, message, _) => PublishedStep(f, r, message);
    case Complete(r) => CompleteStep(f, r);
    case Wake(r) => BystanderStep(f, r, Done(f.requests[r].key, f.requests[r].flight, f.results[f.requests[r].flight]));
    case _ =>
  }

  // ----- background refreshes -----

  /** Running and releasing refreshes own their keys, one each; slots bound the fetches. */
  ghost predicate RefreshesInv(b: Refreshes) {
    && |SlotHolders(b.active)| <= MAX_REFRESHES
    && (forall i | i in b.active && !b.active[i].Slotted? :: b.active[i].key in b.keys)
    && (forall i, j | i in b.active && j in b.active && i != j && !b.active[i].Slotted? && !b.active[j].Slotted? ::
          b.active[i].key != b.active[j].key)
  }

  /** Holders can only shrink, or grow by one while a slot is free. */
  lemma HoldersBounded(a: map<Id, Refresh>, a': map<Id, Refresh>, i: Id)
    requires SlotHolders(a') <= SlotHolders(a) + {i}
    requires i in SlotHolders(a') ==> i in SlotHolders(a) || |SlotHolders(a)| < MAX_REFRESHES
    requires |SlotHolders(a)| <= MAX_REFRESHES
    ensures |SlotHolders(a')| <= MAX_REFRESHES
  {
    if i in SlotHolders(a) || i !in SlotHolders(a') {
      assert SlotHolders(a') <= SlotHolders(a);
      SubsetSize(SlotHolders(a'), SlotHolders(a));
    } else {
      SubsetSize(SlotHolders(a'), SlotHolders(a) + {i});
    }
  }

  lemma {:induction false} SubsetSize(a: set<Id>, b: set<Id>)
    requires a <= b
    ensures |a| <= |b|
    decreases |a|
  {
    if a != {} {
      var x :| x in a;
      SubsetSize(a - {x}, b - {x});
    }
  }

  lemma RefreshesStep(s: State, step: Step)
    requires RefreshesInv(s.refreshes) && Enabled(s, step)
    ensures RefreshesInv(RefreshesAfter(s, step))
  {
    var b, b' := s.refreshes, RefreshesAfter(s, step);
    match step
    case StartRefresh(i, _) => HoldersBounded(b.active, b'.active, i);
    case EnterRefresh(i) => HoldersBounded(b.active, b'.active, i);
    case PublishRefresh(i, _, _) => HoldersBounded(b.active, b'.active, i);
    case ForgetRefresh(i) => HoldersBounded(b.active, b'.active, i);
    case _ =>
  }

  // ----- every run -----

  ghost predicate Inv(s: State) {
    && SharedInv(s.shared) && FetchesOrdered(s)
    && FlightsInv(s.flights) && RefreshesInv(s.refreshes)
  }

  lemma StepInv(s: State, step: Step)
    requires Inv(s)
    ensures Inv(Apply(s, step))
  {
    if Enabled(s, step) {
      SharedStep(s, step);
      FetchesStep(s, step);
      FlightsStep(s, step);
      RefreshesStep(s, step);
    }
  }

  /** The state after any interleaving of steps. */
  ghost function Run(steps: seq<Step>): (s: State)
    ensures Inv(s)
  {
    if steps == [] then Initial
    else
      var s := Run(steps[..|steps| - 1]);
      StepInv(s, steps[|steps| - 1]);
      Apply(s, steps[|steps| - 1])
  }

  // ----- what holds in every state of every run -----

  /** Once no purge is pending, no cached entry comes from a fetch that began before an
      invalidation covering its key. */
  ghost predicate NoStaleEntries(c: Shared) {
    !c.purging ==>
      forall k, i | k in c.cache && 0 <= i < |c.log| && k in c.log[i].covers :: c.log[i].at <= c.cache[k].start
  }

  /** A waiting query is either ready or waits for a leader, which never waits itself: its
      next step is enabled, or only a pending purge is in the way. */
  ghost predicate WaiterProgress(s: State, r: Id) {
    var f := s.flights;
    r in f.requests && f.requests[r].Waiting? ==>
      || f.requests[r].flight in f.results
      || exists l :: l in f.requests && Unblocked(s, l, f.requests[r].flight)
  }

  ghost predicate Unblocked(s: State, l: Id, flight: Id)
    requires l in s.flights.requests
  {
    var q := s.flights.requests[l];
    IsLeader(q) && q.flight == flight &&
    (Enabled(s, Complete(l)) || Enabled(s, PublishMiss(l, 0, false)) || Enabled(s, FinishInvalidation))
  }

  /** Queries served by one flight get one message. */
  ghost predicate SharedResults(f: Flights) {
    forall r, r' | r in f.requests && r' in f.requests && f.requests[r].Done? && f.requests[r'].Done?
                   && f.requests[r].flight == f.requests[r'].flight ::
      f.requests[r].message == f.requests[r'].message
  }

  /** At most one refresh fetch per key, and at most MAX_REFRESHES at a time. */
  ghost predicate RefreshesBounded(a: map<Id, Refresh>) {
    && |RunningSet(a)| <= MAX_REFRESHES
    && forall i, j | i in a && j in a && a[i].Running? && a[j].Running? && a[i].key == a[j].key :: i == j
  }

  function RunningSet(a: map<Id, Refresh>): set<Id> {
    set i | i in a && a[i].Running?
  }

  lemma InvNoStaleEntries(c: Shared)
    requires SharedInv(c)
    ensures NoStaleEntries(c)
  {
    forall k, i | !c.purging && k in c.cache && 0 <= i < |c.log| && k in c.log[i].covers
      ensures c.log[i].at <= c.cache[k].start
    {
      assert FreshEntry(c, k, c.cache[k]);
    }
  }

  lemma InvWaiterProgress(s: State, r: Id)
    requires SharedInv(s.shared) && FlightsInv(s.flights)
    ensures WaiterProgress(s, r)
  {
    var f := s.flights;
    if r in f.requests && f.requests[r].Waiting? && f.requests[r].flight !in f.results {
      var k :| k in f.table && f.table[k] == f.requests[r].flight;
      assert HasLeader(f, k);
      var l :| l in f.requests && IsLeader(f.requests[l]) && f.requests[l].key == k;
      assert Unblocked(s, l, f.requests[r].flight);
    }
  }

  lemma InvRefreshesBounded(b: Refreshes)
    requires RefreshesInv(b)
    ensures RefreshesBounded(b.active)
  {
    SubsetSize(RunningSet(b.active), SlotHolders(b.active));
  }

  /** All of it, for every interleaving. */
  lemma EveryRun(steps: seq<Step>)
    ensures var s := Run(steps);
            && NoStaleEntries(s.shared)
            && (forall r :: WaiterProgress(s, r))
            && |s.flights.table| <= MAX_FLIGHTS
            && SharedResults(s.flights)
            && RefreshesBounded(s.refreshes.active)
  {
    InvSettles(Run(steps));
  }

  lemma InvSettles(s: State)
    requires Inv(s)
    ensures NoStaleEntries(s.shared) && SharedResults(s.flights) && RefreshesBounded(s.refreshes.active)
    ensures |s.flights.table| <= MAX_FLIGHTS && forall r :: WaiterProgress(s, r)
  {
    InvNoStaleEntries(s.shared);
    InvRefreshesBounded(s.refreshes);
    forall r ensures WaiterProgress(s, r) {
      InvWaiterProgress(s, r);
    }
  }
}
