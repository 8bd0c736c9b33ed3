/** Laws of the cache protocol over whole runs, stated in terms of the steps alone: what an
    invalidation removes, where cached entries come from, and whose answer a query gets. */
module CacheRuns {
  import opened CacheProtocol

  /** The i-th step was enabled when its turn came. */
  ghost predicate Taken(steps: seq<Step>, i: nat) {
    i < |steps| && Enabled(Run(steps[..i]), steps[i])
  }

  /** Starting and finishing an invalidation removes exactly the covered keys. */
  lemma InvalidationRemoves(s: State, covers: iset<Key>)
    requires Enabled(s, StartInvalidation(covers))
    ensures var s' := Apply(Apply(s, StartInvalidation(covers)), FinishInvalidation);
            && s'.shared.cache == (map k | k in s.shared.cache && k !in covers :: s.shared.cache[k])
            && !s'.shared.purging && s'.shared.generation > s.shared.generation
  {
  }

  /** What can always happen next: a new query misses, a miss begins, an answered follower wakes up,
      and an invalidation of any keys starts once no purge is pending, which can finish. */
  lemma NextSteps(s: State, r: Id, key: Key, covers: iset<Key>)
    requires Inv(s)
    ensures r !in s.flights.requests ==> Enabled(s, Miss(r, key))
    ensures r in s.flights.requests && s.flights.requests[r].Missed? ==> Enabled(s, Begin(r))
    ensures r in s.flights.requests && s.flights.requests[r].Waiting? && s.flights.requests[r].flight in s.flights.results ==>
              Enabled(s, Wake(r))
    ensures Enabled(s, if s.shared.purging then FinishInvalidation else StartInvalidation(covers))
  {
  }

  /** A cached key leaves only by its own eviction or by a purge that covers it. */
  lemma EntriesStay(s: State, step: Step, k: Key)
    requires k in s.shared.cache && k !in Apply(s, step).shared.cache
    ensures step == Evict(k) || (step.FinishInvalidation? && s.shared.log != [] && k in s.shared.log[|s.shared.log| - 1].covers)
  {
  }

  /** What a missed query becomes: a follower of its key's flight, the leader of a new one, or
      rejected because the table is full. */
  lemma BeginOutcome(s: State, r: Id)
    requires Enabled(s, Begin(r))
    ensures var key, f := s.flights.requests[r].key, s.flights;
            var q := Apply(s, Begin(r)).flights.requests[r];
            && q.key == key
            && (q.Waiting? <==> key in f.table) && (q.Waiting? ==> q.flight == f.table[key])
            && (q.Rejected? <==> key !in f.table && |f.table| >= MAX_FLIGHTS)
            && (q.Leading? <==> key !in f.table && |f.table| < MAX_FLIGHTS)
  {
  }

  /** A leader's message reaches itself and every follower of its flight unchanged. */
  lemma CompleteDelivers(s: State, l: Id, r: Id)
    requires Enabled(s, Complete(l)) && r in s.flights.requests && s.flights.requests[r].Waiting?
    requires s.flights.requests[r].flight == s.flights.requests[l].flight
    ensures var s' := Apply(Apply(s, Complete(l)), Wake(r));
            && s'.flights.requests[l].Done? && s'.flights.requests[l].message == s.flights.requests[l].message
            && s'.flights.requests[r].Done? && s'.flights.requests[r].message == s.flights.requests[l].message
  {
  }

  /** A refresh can start whenever fewer than 64 refreshes fetch, and its key decides whether it
      fetches: it stops if another refresh owns the key. */
  lemma RefreshOutcome(s: State, i: Id, key: Key)
    requires i !in s.refreshes.active
    requires |set j | j in s.refreshes.active && !s.refreshes.active[j].Releasing?| < 64
    ensures Enabled(s, StartRefresh(i, key))
    ensures var s' := Apply(Apply(s, StartRefresh(i, key)), EnterRefresh(i));
            if key in s.refreshes.keys then i !in s'.refreshes.active && s'.refreshes.keys == s.refreshes.keys
            else
              && i in s'.refreshes.active && s'.refreshes.keys == s.refreshes.keys + {key}
              && s'.refreshes.active[i] == Running(key, Fetch(s.shared.generation, s.shared.now))
  {
    assert SlotHolders(s.refreshes.active) == set j | j in s.refreshes.active && !s.refreshes.active[j].Releasing?;
  }

  /** A fetched message is stored exactly if it is cacheable and nothing was invalidated since
      the fetch began. */
  lemma PublishOutcome(s: State, key: Key, fetch: Fetch, step: Step)
    requires Inv(s) && Enabled(s, step) && (step.PublishMiss? || step.PublishRefresh?)
    requires step.PublishMiss? ==> s.flights.requests[step.r].key == key && s.flights.requests[step.r].fetch == fetch
    requires step.PublishRefresh? ==> s.refreshes.active[step.i].key == key && s.refreshes.active[step.i].fetch == fetch
    ensures Apply(s, step).shared.cache
            == if step.cacheable && forall i | 0 <= i < |s.shared.log| :: s.shared.log[i].at <= fetch.start
               then s.shared.cache[key := Entry(step.message, fetch.start)] else s.shared.cache
  {
    StoredIff(s.shared, key, fetch, step.message);
  }

  // ----- time -----

  lemma RunSnoc(steps: seq<Step>)
    requires steps != []
    ensures Run(steps) == Apply(Run(steps[..|steps| - 1]), steps[|steps| - 1])
  {
  }

  lemma {:induction false} NowGrows(steps: seq<Step>, i: nat)
    requires i <= |steps|
    ensures Run(steps[..i]).shared.now <= Run(steps).shared.now
    ensures i < |steps| && Taken(steps, i) ==> Run(steps[..i]).shared.now < Run(steps).shared.now
  {
    hide Run, Apply, Enabled, Inv;
    if i < |steps| {
      var n := |steps| - 1;
      RunSnoc(steps);
      assert steps[..n][..i] == steps[..i];
      NowGrows(steps[..n], i);
      ApplyTicks(Run(steps[..n]), steps[n]);
    } else {
      assert steps[..i] == steps;
    }
  }

  lemma ApplyTicks(s: State, step: Step)
    ensures Apply(s, step).shared.now == s.shared.now + if Enabled(s, step) then 1 else 0
  {
  }

  // ----- where cached entries come from -----

  predicate Fetches(step: Step, k: Key) {
    (step.Miss? || step.StartRefresh?) && step.key == k
  }

  predicate Stores(step: Step, message: Message) {
    (step.PublishMiss? || step.PublishRefresh?) && step.cacheable && step.message == message
  }

  /** A fetch of the key began at this time with the j-th step. */
  ghost predicate Began(steps: seq<Step>, j: nat, k: Key, start: nat) {
    Taken(steps, j) && Fetches(steps[j], k) && Run(steps[..j]).shared.now == start
  }

  ghost predicate FetchOrigin(steps: seq<Step>, k: Key, start: nat) {
    exists j: nat :: Began(steps, j, k, start)
  }

  /** The entry's fetch began with the j-th step and its message was published with the m-th. */
  ghost predicate Produced(steps: seq<Step>, j: nat, m: nat, k: Key, e: Entry) {
    j < m && Began(steps, j, k, e.start) && Taken(steps, m) && Stores(steps[m], e.message)
  }

  ghost predicate EntryOrigin(steps: seq<Step>, k: Key, e: Entry) {
    exists j: nat, m: nat :: Produced(steps, j, m, k, e)
  }

  ghost predicate RequestOrigin(steps: seq<Step>, q: Request) {
    q.Missed? || q.Leading? ==> FetchOrigin(steps, q.key, q.fetch.start)
  }

  ghost predicate RefreshOrigin(steps: seq<Step>, q: Refresh) {
    q.Slotted? || q.Running? ==> FetchOrigin(steps, q.key, q.fetch.start)
  }

  ghost predicate Origins(steps: seq<Step>, s: State) {
    && (forall r | r in s.flights.requests :: RequestOrigin(steps, s.flights.requests[r]))
    && (forall i | i in s.refreshes.active :: RefreshOrigin(steps, s.refreshes.active[i]))
    && (forall k | k in s.shared.cache :: EntryOrigin(steps, k, s.shared.cache[k]))
  }

  lemma TakenStays(steps: seq<Step>, step: Step, i: nat)
    requires Taken(steps, i)
    ensures Taken(steps + [step], i) && (steps + [step])[i] == steps[i] && (steps + [step])[..i] == steps[..i]
  {
    assert (steps + [step])[..i] == steps[..i];
  }

  lemma OriginsStay(steps: seq<Step>, step: Step, k: Key)
    ensures forall start | FetchOrigin(steps, k, start) :: FetchOrigin(steps + [step], k, start)
    ensures forall e | EntryOrigin(steps, k, e) :: EntryOrigin(steps + [step], k, e)
  {
    hide Run, Enabled, Taken, Inv;
    forall start | FetchOrigin(steps, k, start) ensures FetchOrigin(steps + [step], k, start) {
      var j: nat :| Began(steps, j, k, start);
      TakenStays(steps, step, j);
      assert Began(steps + [step], j, k, start);
    }
    forall e | EntryOrigin(steps, k, e) ensures EntryOrigin(steps + [step], k, e) {
      var j: nat, m: nat :| Produced(steps, j, m, k, e);
      TakenStays(steps, step, j);
      TakenStays(steps, step, m);
      assert Produced(steps + [step], j, m, k, e);
    }
  }

  /** A fetch that begins with the new step. */
  lemma BeginsNow(steps: seq<Step>, step: Step, k: Key)
    requires Enabled(Run(steps), step) && Fetches(step, k)
    ensures FetchOrigin(steps + [step], k, Run(steps).shared.now)
  {
    assert (steps + [step])[..|steps|] == steps;
    assert Began(steps + [step], |steps|, k, Run(steps).shared.now);
  }

  /** A message stored with the new step, whose fetch began earlier. */
  lemma StoresNow(steps: seq<Step>, step: Step, k: Key, start: nat, message: Message)
    requires Enabled(Run(steps), step) && Stores(step, message) && FetchOrigin(steps, k, start)
    ensures EntryOrigin(steps + [step], k, Entry(message, start))
  {
    var j: nat :| Began(steps, j, k, start);
    TakenStays(steps, step, j);
    assert (steps + [step])[..|steps|] == steps;
    assert Produced(steps + [step], j, |steps|, k, Entry(message, start));
  }

  // What one step leaves of a query's fetch, of a refresh's fetch, and of a cached entry.

  lemma RequestCases(s: State, step: Step, r: Id)
    requires r in Apply(s, step).flights.requests
    ensures var q' := Apply(s, step).flights.requests[r];
            q'.Missed? || q'.Leading? ==>
              || (Enabled(s, step) && step.Miss? && q'.key == step.key && q'.fetch.start == s.shared.now)
              || (r in s.flights.requests && (s.flights.requests[r].Missed? || s.flights.requests[r].Leading?)
                  && s.flights.requests[r].key == q'.key && s.flights.requests[r].fetch == q'.fetch)
  {
  }

  lemma RefreshCases(s: State, step: Step, i: Id)
    requires i in Apply(s, step).refreshes.active
    ensures var q' := Apply(s, step).refreshes.active[i];
            !q'.Releasing? ==>
              || (Enabled(s, step) && step.StartRefresh? && q'.key == step.key && q'.fetch.start == s.shared.now)
              || (i in s.refreshes.active && !s.refreshes.active[i].Releasing?
                  && s.refreshes.active[i].key == q'.key && s.refreshes.active[i].fetch == q'.fetch)
  {
  }

  lemma CacheCases(s: State, step: Step, k: Key)
    requires k in Apply(s, step).shared.cache
    ensures var e := Apply(s, step).shared.cache[k];
            || (k in s.shared.cache && s.shared.cache[k] == e)
            || (Enabled(s, step) && Stores(step, e.message)
                && ((step.PublishMiss? && step.r in s.flights.requests && s.flights.requests[step.r].Leading?
                     && s.flights.requests[step.r].key == k && s.flights.requests[step.r].fetch.start == e.start)
                    || (step.PublishRefresh? && step.i in s.refreshes.active && s.refreshes.active[step.i].Running?
                        && s.refreshes.active[step.i].key == k && s.refreshes.active[step.i].fetch.start == e.start)))
  {
    assert Enabled(s, step) ==> Apply(s, step).shared.cache == SharedAfter(s, step).cache;
  }

  lemma RequestsStep(steps: seq<Step>, step: Step, r: Id)
    requires Origins(steps, Run(steps)) && r in Apply(Run(steps), step).flights.requests
    ensures RequestOrigin(steps + [step], Apply(Run(steps), step).flights.requests[r])
  {
    hide Run, Apply, Enabled, Inv, FetchOrigin, EntryOrigin;
    var s := Run(steps);
    var q := Apply(s, step).flights.requests[r];
    if q.Missed? || q.Leading? {
      RequestCases(s, step, r);
      OriginsStay(steps, step, q.key);
      if Enabled(s, step) && step.Miss? && q.key == step.key && q.fetch.start == s.shared.now {
        BeginsNow(steps, step, q.key);
      } else {
        assert RequestOrigin(steps, s.flights.requests[r]);
      }
    }
  }

  lemma RefreshesStep(steps: seq<Step>, step: Step, i: Id)
    requires Origins(steps, Run(steps)) && i in Apply(Run(steps), step).refreshes.active
    ensures RefreshOrigin(steps + [step], Apply(Run(steps), step).refreshes.active[i])
  {
    hide Run, Apply, Enabled, Inv, FetchOrigin, EntryOrigin;
    var s := Run(steps);
    var q := Apply(s, step).refreshes.active[i];
    if !q.Releasing? {
      RefreshCases(s, step, i);
      OriginsStay(steps, step, q.key);
      if Enabled(s, step) && step.StartRefresh? && q.key == step.key && q.fetch.start == s.shared.now {
        BeginsNow(steps, step, q.key);
      } else {
        assert RefreshOrigin(steps, s.refreshes.active[i]);
      }
    }
  }

  lemma CacheStep(steps: seq<Step>, step: Step, k: Key)
    requires Origins(steps, Run(steps)) && k in Apply(Run(steps), step).shared.cache
    ensures EntryOrigin(steps + [step], k, Apply(Run(steps), step).shared.cache[k])
  {
    hide Run, Apply, Enabled, Inv, FetchOrigin, EntryOrigin;
    var s := Run(steps);
    var e := Apply(s, step).shared.cache[k];
    CacheCases(s, step, k);
    OriginsStay(steps, step, k);
    if k in s.shared.cache && s.shared.cache[k] == e {
      assert EntryOrigin(steps, k, e);
    } else {
      if step.PublishMiss? {
        assert RequestOrigin(steps, s.flights.requests[step.r]);
      } else {
        assert RefreshOrigin(steps, s.refreshes.active[step.i]);
      }
      StoresNow(steps, step, k, e.start, e.message);
    }
  }

  lemma OriginStep(steps: seq<Step>, step: Step)
    requires Origins(steps, Run(steps))
    ensures Origins(steps + [step], Apply(Run(steps), step))
  {
    hide Run, Apply, Enabled, Inv, RequestOrigin, RefreshOrigin, EntryOrigin;
    var s' := Apply(Run(steps), step);
    forall r | r in s'.flights.requests ensures RequestOrigin(steps + [step], s'.flights.requests[r]) {
      RequestsStep(steps, step, r);
    }
    forall i | i in s'.refreshes.active ensures RefreshOrigin(steps + [step], s'.refreshes.active[i]) {
      RefreshesStep(steps, step, i);
    }
    forall k | k in s'.shared.cache ensures EntryOrigin(steps + [step], k, s'.shared.cache[k]) {
      CacheStep(steps, step, k);
    }
  }

  lemma EmptyOrigins()
    ensures Origins([], Run([]))
  {
    assert Run([]) == Initial;
  }

  lemma {:induction false} RunOrigins(steps: seq<Step>)
    ensures Origins(steps, Run(steps))
  {
    hide Run, Apply, Enabled, Inv, Origins;
    if steps == [] {
      EmptyOrigins();
    } else {
      var n := |steps| - 1;
      RunOrigins(steps[..n]);
      RunSnoc(steps);
      assert steps == steps[..n] + [steps[n]];
      OriginStep(steps[..n], steps[n]);
    }
  }

  // ----- invalidations over a run -----

  /** The log has every invalidation that was started, with what it covers and when. */
  ghost predicate Logged(c: Shared, covers: iset<Key>, at: nat) {
    exists x :: 0 <= x < |c.log| && c.log[x].covers == covers && c.log[x].at == at
  }

  lemma StartLogged(s: State, covers: iset<Key>)
    requires Enabled(s, StartInvalidation(covers))
    ensures Logged(Apply(s, StartInvalidation(covers)).shared, covers, s.shared.now + 1)
  {
    var c := Apply(s, StartInvalidation(covers)).shared;
    assert c.log[|c.log| - 1].covers == covers;
  }

  lemma {:induction false} InvalidationLogged(steps: seq<Step>, i: nat)
    requires Taken(steps, i) && steps[i].StartInvalidation?
    ensures Logged(Run(steps).shared, steps[i].covers, Run(steps[..i]).shared.now + 1)
  {
    hide Run, Apply, Enabled, Inv, Logged;
    var n := |steps| - 1;
    RunSnoc(steps);
    if i < n {
      assert steps[..n][..i] == steps[..i];
      InvalidationLogged(steps[..n], i);
      LogGrows(Run(steps[..n]), steps[n], steps[i].covers, Run(steps[..i]).shared.now + 1);
    } else {
      StartLogged(Run(steps[..n]), steps[n].covers);
    }
  }

  lemma LogGrows(s: State, step: Step, covers: iset<Key>, at: nat)
    requires Logged(s.shared, covers, at)
    ensures Logged(Apply(s, step).shared, covers, at)
  {
    var x :| 0 <= x < |s.shared.log| && s.shared.log[x].covers == covers && s.shared.log[x].at == at;
    assert Apply(s, step).shared.log[x] == s.shared.log[x];
  }

  lemma LoggedIsRespected(c: Shared, covers: iset<Key>, at: nat, k: Key)
    requires Logged(c, covers, at) && NoStaleEntries(c) && !c.purging && k in c.cache && k in covers
    ensures at <= c.cache[k].start
  {
  }

  lemma RunNotStale(steps: seq<Step>)
    ensures NoStaleEntries(Run(steps).shared)
  {
    InvNoStaleEntries(Run(steps).shared);
  }

  /** In every run: once no purge is pending, a cached key that an earlier step invalidated comes
      from a fetch of that key that began after that step, and holds what was published for it. */
  lemma InvalidatedKeysRefetched(steps: seq<Step>, i: nat, k: Key)
    requires Taken(steps, i) && steps[i].StartInvalidation? && k in steps[i].covers
    requires !Run(steps).shared.purging && k in Run(steps).shared.cache
    ensures exists j: nat, m: nat :: i < j && Produced(steps, j, m, k, Run(steps).shared.cache[k])
  {
    hide Run, Apply, Enabled, Inv, Logged, NoStaleEntries, Origins;
    var c := Run(steps).shared;
    CachedOrigin(steps, k);
    RunNotStale(steps);
    InvalidationLogged(steps, i);
    LoggedIsRespected(c, steps[i].covers, Run(steps[..i]).shared.now + 1, k);
    var j: nat, m: nat :| Produced(steps, j, m, k, c.cache[k]);
    if j <= i {
      TimeOrders(steps, j, i);
    }
  }

  lemma TimeOrders(steps: seq<Step>, j: nat, i: nat)
    requires j <= i <= |steps|
    ensures Run(steps[..j]).shared.now <= Run(steps[..i]).shared.now
  {
    hide Run;
    assert steps[..i][..j] == steps[..j];
    NowGrows(steps[..i], j);
  }

  lemma CachedOrigin(steps: seq<Step>, k: Key)
    requires k in Run(steps).shared.cache
    ensures EntryOrigin(steps, k, Run(steps).shared.cache[k])
  {
    hide Run;
    RunOrigins(steps);
  }
}
