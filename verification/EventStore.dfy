/** The ring and the archive queue fed by one stream of events.  Both hold a suffix of one
    log, the arrivals with all later updates applied, so what they share is identical. */
module EventStore {
  import opened Options
  import opened ArchiveLedger
  import opened EventRing
  import opened ArchiveQueue

  const SCAN_LIMIT: nat := 1000

  // ----- suffixes of the log -----

  lemma LastNSnoc(s: seq<Event>, e: Event, n: nat)
    requires 0 < n
    ensures LastN(LastN(s, n) + [e], n) == LastN(s + [e], n)
  {
  }

  lemma LastNAmended(s: seq<Event>, n: nat, k: nat, e: Event)
    requires k < |LastN(s, n)|
    ensures LastN(Amended(s, k, e), n) == Amended(LastN(s, n), k, e)
  {
  }

  lemma LastNIsSuffix(s: seq<Event>, n: nat)
    ensures |LastN(s, n)| <= |s| && LastN(s, n) == s[|s| - |LastN(s, n)|..]
  {
  }

  lemma NewestMatches(s: seq<Event>, p: Event -> bool, limit: nat, k: nat)
    requires IsNewest(s, p, limit, Some(k))
    ensures k < |s| && p(FromEnd(s, k))
  {
  }

  lemma SuffixFromEnd(s: seq<Event>, n: nat, k: nat)
    requires k < n <= |s|
    ensures FromEnd(s[|s| - n..], k) == FromEnd(s, k)
  {
  }

  lemma SuffixAmended(s: seq<Event>, n: nat, k: nat, e: Event)
    requires n <= |s| && k < |s|
    ensures Amended(s, k, e)[|s| - n..] == if k < n then Amended(s[|s| - n..], k, e) else s[|s| - n..]
  {
  }

  /** The scan of the ring and the scan of the queue pick the same event: the ring's match is
      found in the queue at the same distance, or is too old to be in the queue. */
  lemma ScansAgree(log: seq<Event>, ringSize: nat, queued: nat, p: Event -> bool, k: nat, b: Option<nat>)
    requires queued <= |log| && ringSize <= |log|
    requires IsNewest(log[|log| - ringSize..], p, SCAN_LIMIT, Some(k))
    requires IsNewest(log[|log| - queued..], p, queued, b)
    ensures b == if k < queued then Some(k) else None
  {
    var ring, queue := log[|log| - ringSize..], log[|log| - queued..];
    SuffixFromEnd(log, ringSize, k);
    if k < queued {
      SuffixFromEnd(log, queued, k);
      assert p(FromEnd(queue, k));
    }
    if b.Some? && b.value != k {
      SuffixFromEnd(log, queued, b.value);
      if b.value < k {
        SuffixFromEnd(log, ringSize, b.value);
      }
      assert false;
    }
  }

  /** Dropping the oldest keeps the queue a suffix, also when a batch returns. */
  lemma AddSuffix(l: Ledger, e: Event, limit: nat)
    requires Consistent(l, limit) && 0 < limit
    ensures var l' := Add(l, e, limit);
            Front(l') >= 0 && LastN(l.log[Front(l)..] + [e], limit) == l'.log[Front(l')..]
  {
    SuffixAppended(l.log, l.pending, e, limit);
    hide Assign;
  }

  lemma LastNJoin(a: seq<Event>, b: seq<Event>, limit: nat)
    requires |b| <= limit
    ensures var d := Overflow(|a|, |b|, limit); d <= |a| && LastN(a + b, limit) == a[d..] + b
  {
  }

  lemma RestoreSuffix(l: Ledger, claimed: seq<Event>, limit: nat)
    requires Consistent(l, limit) && l.claim.Claim? && |claimed| == l.claim.to - l.claim.from
    ensures var l' := Restore(l, limit);
            var d := Overflow(|claimed|, l.pending, limit);
            && d <= |claimed| && Front(l') >= 0
            && |LastN(claimed + l.log[Front(l)..], limit)| == l'.pending
            && (LastN(claimed + l.log[Front(l)..], limit) == l'.log[Front(l')..]
                <==> claimed[d..] == l.log[l.claim.from + d..l.claim.to])
  {
    hide LastN, Consistent, Restore, Overflow;
    RestoreShape(l, limit);
    RestoredTail(l, limit);
    var d, tail := Overflow(|claimed|, l.pending, limit), l.log[Front(l)..];
    LastNJoin(claimed, tail, limit);
    SamePrefix(claimed[d..], l.log[l.claim.from + d..l.claim.to], tail);
  }

  /** After a restore the newest arrivals are the surviving part of the batch and the queue. */
  lemma RestoredTail(l: Ledger, limit: nat)
    requires Consistent(l, limit) && l.claim.Claim?
    ensures var l' := Restore(l, limit);
            var d := Overflow(l.claim.to - l.claim.from, l.pending, limit);
            && d <= l.claim.to - l.claim.from && Front(l') >= 0
            && l'.log[Front(l')..] == l.log[l.claim.from + d..l.claim.to] + l.log[Front(l)..]
  {
    RestoreShape(l, limit);
    hide Consistent, Restore, Overflow;
    var d := Overflow(l.claim.to - l.claim.from, l.pending, limit);
    if d < l.claim.to - l.claim.from {
      SplitLog(l.log, l.claim.from + d, l.claim.to);
    }
  }

  /** The surviving part of a returning batch ends where the pending events begin. */
  lemma RestoreShape(l: Ledger, limit: nat)
    requires Consistent(l, limit) && l.claim.Claim?
    ensures var n := l.claim.to - l.claim.from;
            var d := Overflow(n, l.pending, limit);
            && d <= n && l.pending <= limit && l.claim.from < l.claim.to <= Front(l) <= |l.log|
            && (d < n ==> l.claim.to == Front(l))
            && Restore(l, limit).log == l.log && Restore(l, limit).pending == l.pending + n - d
  {
    RestoreConsistent(l, limit);
    hide Assign;
  }

  lemma SplitLog(log: seq<Event>, from: nat, to: nat)
    requires from <= to <= |log|
    ensures log[from..] == log[from..to] + log[to..]
  {
  }

  lemma SamePrefix(a: seq<Event>, b: seq<Event>, tail: seq<Event>)
    requires |a| == |b|
    ensures a + tail == b + tail <==> a == b
  {
    assert a == (a + tail)[..|a|] && b == (b + tail)[..|b|];
  }

  ghost predicate ClaimMatches(l: Ledger, claimed: seq<Event>) {
    |claimed| == if l.claim.NoClaim? then 0 else l.claim.to - l.claim.from
  }

  /** The claimed copy still equals what the log now says. */
  ghost predicate Intact(l: Ledger, claimed: seq<Event>) {
    l.claim.Claim? ==> l.claim.from <= l.claim.to <= |l.log| && claimed == l.log[l.claim.from..l.claim.to]
  }

  lemma AddKeepsIntact(l: Ledger, e: Event, limit: nat, claimed: seq<Event>)
    requires Consistent(l, limit) && 0 < limit && Intact(l, claimed)
    ensures Intact(Add(l, e, limit), claimed)
  {
    if l.claim.Claim? {
      assert (l.log + [e])[l.claim.from..l.claim.to] == l.log[l.claim.from..l.claim.to];
    }
  }

  /** The event at distance hit from the newest is changed by f. */
  ghost function Patched(l: Ledger, hit: Option<nat>, f: Event -> Event): Ledger
    requires hit.Some? ==> hit.value < |l.log|
  {
    match hit
    case None => l
    case Some(k) => l.(log := Amended(l.log, k, f(FromEnd(l.log, k))))
  }

  ghost function RingPatched(s: seq<Event>, hit: Option<nat>, f: Event -> Event): (r: seq<Event>)
    requires hit.Some? ==> hit.value < |s|
    ensures |r| == |s|
    ensures forall i | 0 <= i < |s| :: FromEnd(r, i) == if hit == Some(i) then f(FromEnd(s, i)) else FromEnd(s, i)
  {
    if hit.None? then s else Amended(s, hit.value, f(FromEnd(s, hit.value)))
  }

  /** The queue's newest match takes over fields from a changed event. */
  ghost function Merged(s: seq<Event>, b: Option<nat>, merge: (Event, Event) -> Event, changed: Event): (r: seq<Event>)
    requires b.Some? ==> b.value < |s|
    ensures |r| == |s|
  {
    match b
    case None => s
    case Some(j) => Amended(s, j, merge(FromEnd(s, j), changed))
  }

  /** Merging into the queue's newest match and changing the log give the same suffix. */
  lemma MergedSuffix(log: seq<Event>, ringSize: nat, queued: nat, p: Event -> bool, k: nat, b: Option<nat>,
                     merge: (Event, Event) -> Event, changed: Event)
    requires queued <= |log| && k < ringSize <= |log|
    requires IsNewest(log[|log| - ringSize..], p, SCAN_LIMIT, Some(k))
    requires IsNewest(log[|log| - queued..], p, queued, b)
    requires merge(FromEnd(log, k), changed) == changed
    ensures b.Some? ==> b.value < queued
    ensures Merged(log[|log| - queued..], b, merge, changed) == Amended(log, k, changed)[|log| - queued..]
  {
    hide IsNewest;
    ScansAgree(log, ringSize, queued, p, k, b);
    SuffixAmended(log, queued, k, changed);
    if k < queued {
      SuffixFromEnd(log, queued, k);
    }
  }

  // ----- an update between the two locks of an arrival -----

  /** An event is in the ring already and not yet in the queue, and an update picks the ring's
      event at distance k and the queue's at b.  When the queue has the event too, it agrees with
      the ring exactly if the update picked an older event, or changed neither the new event nor
      one that stays in the queue. */
  lemma UpdateBetweenLocks(log: seq<Event>, e: Event, max: nat, queued: nat, limit: nat, p: Event -> bool,
                           f: Event -> Event, merge: (Event, Event) -> Event, k: nat, b: Option<nat>)
    requires 0 < max && 0 < limit && queued <= |log| && queued <= limit
    requires forall x | p(x) :: merge(x, f(x)) == f(x)
    requires IsNewest(LastN(log + [e], max), p, SCAN_LIMIT, Some(k))
    requires IsNewest(log[|log| - queued..], p, queued, b)
    ensures var changed := f(FromEnd(log + [e], k));
            var all := Amended(log + [e], k, changed);
            var queue := LastN(Merged(log[|log| - queued..], b, merge, changed) + [e], limit);
            |queue| <= |all| &&
            (queue == all[|all| - |queue|..] <==>
               k > 0 || (f(e) == e && (b.None? || b.value + 1 == limit || merge(FromEnd(log, b.value), changed) == FromEnd(log, b.value))))
  {
    LastNIsSuffix(log + [e], max);
    if k > 0 {
      OlderPick(log, e, max, queued, limit, p, f, merge, k, b);
    } else {
      NewestPick(log, e, queued, limit, merge, f(e), b);
    }
  }

  lemma OlderPick(log: seq<Event>, e: Event, max: nat, queued: nat, limit: nat, p: Event -> bool,
                  f: Event -> Event, merge: (Event, Event) -> Event, k: nat, b: Option<nat>)
    requires 0 < max && 0 < limit && queued <= |log| && queued <= limit && 0 < k <= |log|
    requires forall x | p(x) :: merge(x, f(x)) == f(x)
    requires IsNewest(LastN(log + [e], max), p, SCAN_LIMIT, Some(k))
    requires IsNewest(log[|log| - queued..], p, queued, b)
    ensures var changed := f(FromEnd(log + [e], k));
            var all := Amended(log + [e], k, changed);
            var queue := LastN(Merged(log[|log| - queued..], b, merge, changed) + [e], limit);
            |queue| <= |all| && queue == all[|all| - |queue|..]
  {
    hide LastN, Amended;
    var ringSize := |LastN(log + [e], max)| - 1;
    var changed := f(FromEnd(log, k - 1));
    WithoutNewest(log, e, max, p, k);
    NewestMatches(log[|log| - ringSize..], p, SCAN_LIMIT, k - 1);
    SuffixFromEnd(log, ringSize, k - 1);
    MergedSuffix(log, ringSize, queued, p, k - 1, b, merge, changed);
    hide IsNewest, Merged;
    AmendedOlder(log, e, k, changed);
    SuffixAppended(Amended(log, k - 1, changed), queued, e, limit);
  }

  lemma AmendedOlder(log: seq<Event>, e: Event, k: nat, changed: Event)
    requires 0 < k <= |log|
    ensures Amended(log + [e], k, changed) == Amended(log, k - 1, changed) + [e]
    ensures FromEnd(log + [e], k) == FromEnd(log, k - 1)
  {
  }

  lemma WithoutNewest(log: seq<Event>, e: Event, max: nat, p: Event -> bool, k: nat)
    requires 0 < max && 0 < k && IsNewest(LastN(log + [e], max), p, SCAN_LIMIT, Some(k))
    ensures var ringSize := |LastN(log + [e], max)| - 1;
            k - 1 < ringSize <= |log| && IsNewest(log[|log| - ringSize..], p, SCAN_LIMIT, Some(k - 1))
  {
    var ring := LastN(log + [e], max);
    var rest := log[|log| - (|ring| - 1)..];
    forall i | 0 <= i < |rest| ensures FromEnd(rest, i) == FromEnd(ring, i + 1) {
    }
  }

  lemma SuffixAppended(s: seq<Event>, n: nat, e: Event, limit: nat)
    requires n <= |s| && n <= limit && 0 < limit
    ensures var r := LastN(s[|s| - n..] + [e], limit); |r| <= |s| + 1 && r == (s + [e])[|s| + 1 - |r|..]
  {
  }

  lemma NewestPick(log: seq<Event>, e: Event, queued: nat, limit: nat, merge: (Event, Event) -> Event, changed: Event, b: Option<nat>)
    requires 0 < limit && queued <= |log| && queued <= limit && (b.Some? ==> b.value < queued)
    ensures var all := Amended(log + [e], 0, changed);
            var queue := LastN(Merged(log[|log| - queued..], b, merge, changed) + [e], limit);
            |queue| <= |all| &&
            (queue == all[|all| - |queue|..] <==>
               changed == e && (b.None? || b.value + 1 == limit || merge(FromEnd(log, b.value), changed) == FromEnd(log, b.value)))
  {
    hide Amended;
    var q := log[|log| - queued..];
    var merged := Merged(q, b, merge, changed);
    AmendedNewest(log, e, changed);
    if b.Some? {
      SuffixFromEnd(log, queued, b.value);
      AmendedSame(q, b.value, merge(FromEnd(q, b.value), changed));
    }
    if queued < limit {
      assert LastN(merged + [e], limit) == merged + [e];
      SnocSame(merged, e, q, changed);
    } else {
      assert LastN(merged + [e], limit) == merged[1..] + [e];
      SnocSame(merged[1..], e, q[1..], changed);
    }
  }

  lemma AmendedNewest(log: seq<Event>, e: Event, changed: Event)
    ensures Amended(log + [e], 0, changed) == log + [changed]
  {
  }

  lemma AmendedSame(s: seq<Event>, k: nat, x: Event)
    requires k < |s|
    ensures Amended(s, k, x) == s <==> x == FromEnd(s, k)
    ensures Amended(s, k, x)[1..] == s[1..] <==> k + 1 == |s| || x == FromEnd(s, k)
  {
    var i := |s| - 1 - k;
    assert Amended(s, k, x)[i] == x;
    if i > 0 {
      assert Amended(s, k, x)[1..][i - 1] == x && s[1..][i - 1] == s[i];
    }
  }

  lemma SnocSame(a: seq<Event>, x: Event, b: seq<Event>, y: Event)
    requires |a| == |b|
    ensures a + [x] == b + [y] <==> a == b && x == y
  {
    assert a == (a + [x])[..|a|] && b == (b + [y])[..|b|];
    assert x == (a + [x])[|a|] && y == (b + [y])[|b|];
  }

  lemma SumEmpty()
    ensures SumBytes([]) == 0
  {
  }

  lemma Positions(l: Ledger, limit: nat)
    requires Consistent(l, limit)
    ensures l.pending <= |l.log| == |l.fates| && l.pending <= limit
    ensures l.claim.Claim? ==> l.claim.from < l.claim.to <= |l.fates|
  {
  }

  lemma PatchedConsistent(l: Ledger, hit: Option<nat>, f: Event -> Event, limit: nat)
    requires Consistent(l, limit) && (hit.Some? ==> hit.value < |l.log|)
    ensures Consistent(Patched(l, hit, f), limit)
  {
  }

  lemma ClaimSuffix(l: Ledger, claimed: seq<Event>, rest: seq<Event>, limit: nat)
    requires Consistent(l, limit) && l.claim.NoClaim? && 0 < |claimed| <= l.pending
    ensures var l' := ClaimOldest(l, |claimed|);
            && Consistent(l', limit) && ClaimMatches(l', claimed)
            && (claimed + rest == l.log[Front(l)..] ==> Intact(l', claimed) && rest == l'.log[Front(l')..])
  {
  }

  lemma CommitClears(l: Ledger, limit: nat)
    requires Consistent(l, limit) && l.claim.Claim?
    ensures Consistent(Commit(l), limit) && Front(Commit(l)) == Front(l)
  {
  }

  lemma RestoredSize(l: Ledger, claimed: seq<Event>, queued: seq<Event>, limit: nat)
    requires Consistent(l, limit) && l.claim.Claim? && |claimed| == l.claim.to - l.claim.from && |queued| == l.pending
    ensures |LastN(claimed + queued, limit)| == Restore(l, limit).pending
  {
  }

  class Store {
    const ring: Ring
    const queue: Queue

    /** All arrivals with their current contents and their fates. */
    ghost var ledger: Ledger
    /** The batch handed to the database, as it was when claimed. */
    ghost var claimed: seq<Event>

    ghost predicate Structure()
      reads this, ring, ring.events, queue
    {
      && ring.Valid() && queue.Valid()
      && Consistent(ledger, queue.limit)
      && ring.contents == LastN(ledger.log, ring.max)
      && |queue.Pending()| == ledger.pending
      && ClaimMatches(ledger, claimed)
    }

    /** Counters agree with the ledger. */
    ghost predicate Counted()
      requires queue.Valid()
      reads this, queue
    {
      && queue.dropped == Count(ledger.fates, Dropped)
      && queue.flightCount == |claimed| && queue.flightBytes == SumBytes(claimed)
    }

    /** The queue is the newest part of the log. */
    ghost predicate Coherent()
      requires queue.Valid() && Front(ledger) >= 0
      reads this, queue
    {
      queue.Pending() == ledger.log[Front(ledger)..]
    }

    constructor (maxEvents: nat, limit: nat, writeBatch: nat)
      requires 0 < maxEvents && 1 <= writeBatch <= limit
      ensures Structure() && Counted() && Coherent() && Intact(ledger, claimed) && ledger == Empty
      ensures fresh(ring) && fresh(ring.events) && fresh(queue)
      ensures queue.limit == limit && queue.writeBatch == writeBatch && ring.max == maxEvents
    {
      ring := new Ring(maxEvents);
      queue := new Queue(limit, writeBatch);
      ledger, claimed := Empty, [];
    }

    /** Events present in both structures are identical. */
    lemma RingAndQueueAgree(k: nat)
      requires Structure() && Coherent() && k < |ring.contents| && k < |queue.Pending()|
      ensures FromEnd(ring.contents, k) == FromEnd(queue.Pending(), k)
    {
    }

    /** Conservation between operations: all arrivals are committed, counted as dropped, in the
        claimed batch or pending in the queue. */
    lemma ArrivalsAccounted()
      requires Structure() && Counted()
      ensures |ledger.log| == Count(ledger.fates, Committed) + queue.dropped + |claimed| + |queue.Pending()|
      ensures queue.flightCount == |claimed| == Count(ledger.fates, Claimed)
      ensures |queue.Pending()| == Count(ledger.fates, Pending)
    {
      hide Count;
      ArrivalsConserved(ledger, queue.limit);
      FateCounts(ledger, queue.limit);
    }

    // ----- arrivals and archiving -----

    method AddEvent(e: Event)
      requires Structure() && Counted()
      modifies ring, ring.events, queue, `ledger
      ensures Structure() && Counted()
      ensures ledger == Add(old(ledger), e, queue.limit)
      ensures old(Coherent()) ==> Coherent()
      ensures Intact(old(ledger), claimed) ==> Intact(ledger, claimed)
    {
      hide Count, Consistent, SumBytes, Intact;
      if Intact(ledger, claimed) {
        AddKeepsIntact(ledger, e, queue.limit, claimed);
      }
      LastNSnoc(ledger.log, e, ring.max);
      AddConsistent(ledger, e, queue.limit);
      AddCounts(ledger, e, queue.limit, Dropped);
      AddSuffix(ledger, e, queue.limit);
      ring.Push(e);
      queue.Add(e);
      ledger := Add(ledger, e, queue.limit);
    }

    /** The oldest events are handed to the database. */
    method ClaimBatch() returns (batch: seq<Event>)
      requires Structure() && Counted() && ledger.claim.NoClaim?
      modifies queue, `ledger, `claimed
      ensures Structure() && Counted()
      ensures batch == claimed && batch + queue.Pending() == old(queue.Pending())
      ensures |batch| == if old(ledger).pending < queue.writeBatch then old(ledger).pending else queue.writeBatch
      ensures ledger == if batch == [] then old(ledger) else ClaimOldest(old(ledger), |batch|)
      ensures old(Coherent()) ==> Coherent() && Intact(ledger, claimed)
    {
      hide Count, Consistent;
      Positions(ledger, queue.limit);
      batch := queue.Claim();
      claimed := batch;
      if batch != [] {
        ClaimSuffix(ledger, batch, queue.Pending(), queue.limit);
        ClaimCounts(ledger, |batch|, queue.limit, Dropped);
        ledger := ClaimOldest(ledger, |batch|);
      }
    }

    /** The database took the batch. */
    method CommitBatch(batch: seq<Event>)
      requires Structure() && Counted() && ledger.claim.Claim? && batch == claimed
      modifies queue, `ledger, `claimed
      ensures Structure() && Counted()
      ensures ledger == Commit(old(ledger)) && claimed == [] && queue.Pending() == old(queue.Pending())
      ensures old(Coherent()) ==> Coherent()
    {
      hide Count, Consistent;
      Positions(ledger, queue.limit);
      CommitClears(ledger, queue.limit);
      CommitCounts(ledger, queue.limit, Dropped);
      queue.Finish(batch);
      ledger, claimed := Commit(ledger), [];
    }

    /** The database refused the batch, which returns in front of the queue.  Ring and queue
        agree afterwards exactly when no surviving event was updated during the claim. */
    method RestoreBatch(batch: seq<Event>)
      requires Structure() && Counted() && ledger.claim.Claim? && batch == claimed
      modifies queue, `ledger, `claimed
      ensures Structure() && Counted()
      ensures ledger == Restore(old(ledger), queue.limit) && claimed == []
      ensures queue.Pending() == LastN(batch + old(queue.Pending()), queue.limit)
      ensures var d := Overflow(|batch|, old(ledger).pending, queue.limit);
              && d <= |batch|
              && (old(Coherent()) ==>
                    (Coherent() <==> batch[d..] == old(ledger).log[old(ledger).claim.from + d..old(ledger).claim.to]))
    {
      hide Count, Consistent, SumBytes, LastN, Overflow;
      SumEmpty();
      Positions(ledger, queue.limit);
      RestoreConsistent(ledger, queue.limit);
      RestoreCounts(ledger, queue.limit, Dropped);
      RestoreSuffix(ledger, batch, queue.limit);
      RestoredSize(ledger, batch, queue.Pending(), queue.limit);
      queue.Restore(batch);
      ledger, claimed := Restore(ledger, queue.limit), [];
    }

    // ----- late updates -----

    /** The newest match of the ring changes by f unless it is done already; the newest match
        of the queue then takes over its fields. */
    method UpdateNewest(p: Event -> bool, done: Event -> bool, f: Event -> Event, merge: (Event, Event) -> Event)
      returns (hit: Option<nat>, already: bool)
      requires Structure() && Counted()
      requires forall e | p(e) :: merge(e, f(e)) == f(e) && (done(e) ==> f(e) == e)
      modifies ring.events, ring`contents, queue, `ledger
      ensures Structure() && Counted() && (old(Coherent()) ==> Coherent())
      ensures IsNewest(old(ring.contents), p, SCAN_LIMIT, hit)
      ensures ledger == Patched(old(ledger), hit, f)
      ensures ring.contents == RingPatched(old(ring.contents), hit, f)
      ensures already == (hit.Some? && done(FromEnd(old(ring.contents), hit.value)))
    {
      hide Count, Consistent, SumBytes;
      already := false;
      Positions(ledger, queue.limit);
      hit := ring.FindNewest(p, SCAN_LIMIT);
      if hit.Some? {
        var k := hit.value;
        SuffixFromEnd(ledger.log, |ring.contents|, k);
        var e := ring.Get(k);
        already := done(e);
        if already {
          assert Amended(ledger.log, k, e) == ledger.log;
        } else {
          ChangeNewest(p, f, merge, k);
        }
      }
      RingAfter(hit, f, old(ledger), old(ring.contents));
    }

    method ChangeNewest(p: Event -> bool, f: Event -> Event, merge: (Event, Event) -> Event, k: nat)
      requires Structure() && Counted() && IsNewest(ring.contents, p, SCAN_LIMIT, Some(k))
      requires forall e | p(e) :: merge(e, f(e)) == f(e)
      modifies ring.events, ring`contents, queue, `ledger
      ensures Structure() && Counted()
      ensures k < |ledger.log| && ledger == Patched(old(ledger), Some(k), f)
      ensures old(Coherent()) ==> Coherent()
    {
      hide Count, Consistent, SumBytes, LastN, Amended, IsNewest, Slot, Merged;
      Positions(ledger, queue.limit);
      LastNIsSuffix(ledger.log, ring.max);
      NewestMatches(ring.contents, p, SCAN_LIMIT, k);
      SuffixFromEnd(ledger.log, |ring.contents|, k);
      PatchedConsistent(ledger, Some(k), f, queue.limit);
      var e := ring.Get(k);
      LastNAmended(ledger.log, ring.max, k, f(e));
      UpdateQueue(p, merge, f(e), ledger.log, |ring.contents|, k);
      ring.Amend(k, f(e));
      ledger := Patched(ledger, Some(k), f);
    }

    /** The queue's part of an update.  If the queue is a suffix of the log, it still is. */
    method UpdateQueue(p: Event -> bool, merge: (Event, Event) -> Event, changed: Event,
                       ghost log: seq<Event>, ghost ringSize: nat, ghost k: nat)
      requires queue.Valid() && |queue.Pending()| <= |log| && k < ringSize <= |log|
      requires IsNewest(log[|log| - ringSize..], p, SCAN_LIMIT, Some(k)) && merge(FromEnd(log, k), changed) == changed
      modifies queue`batch, queue`bytes
      ensures queue.Valid() && |queue.Pending()| == |old(queue.Pending())|
      ensures var n := |queue.Pending()|;
              old(queue.Pending()) == log[|log| - n..] ==> queue.Pending() == Amended(log, k, changed)[|log| - n..]
    {
      hide SumBytes;
      var hit := queue.FindNewest(p);
      if queue.Pending() == log[|log| - |queue.Pending()|..] {
        MergedSuffix(log, ringSize, |queue.Pending()|, p, k, hit, merge, changed);
      }
      if hit.Some? {
        var e := queue.Get(hit.value);
        queue.Amend(hit.value, merge(e, changed));
      }
    }

    /** The answer to a query arrived: the newest unanswered event for it takes its outcome. */
    method UpdateEvent(node: string, domain: string, latency: real, upstream: string, response: string, threshold: real)
      returns (ghost hit: Option<nat>, updated: Option<Event>)
      requires Structure() && Counted()
      modifies ring.events, ring`contents, queue, `ledger
      ensures Structure() && Counted() && (old(Coherent()) ==> Coherent())
      ensures forall i | 0 <= i < |old(ring.contents)| && i < 1000 && (hit.Some? ==> i < hit.value) ::
                var e := FromEnd(old(ring.contents), i); !(e.domain == domain && e.node == node && e.latency.Unknown?)
      ensures hit.Some? ==>
                && hit.value < |old(ring.contents)| && hit.value < 1000
                && var e := FromEnd(old(ring.contents), hit.value); e.domain == domain && e.node == node && e.latency.Unknown?
      ensures |ring.contents| == |old(ring.contents)| &&
              forall i | 0 <= i < |ring.contents| ::
                var e := FromEnd(old(ring.contents), i);
                FromEnd(ring.contents, i) == if hit != Some(i) then e else e.(latency := Known(latency), upstream := upstream, response := response,
                                                                        alert := e.alert || latency > threshold)
      ensures ledger == Patched(old(ledger), hit, Answer(latency, upstream, response, threshold))
      ensures updated == if hit.None? then None else Some(FromEnd(ring.contents, hit.value))
    {
      var f := Answer(latency, upstream, response, threshold);
      var r, _ := UpdateNewest(Unanswered(node, domain), (e: Event) => false, f, TakeOutcome);
      hit, updated := r, None;
      if r.Some? {
        var e := ring.Get(r.value);
        updated := Some(e);
      }
    }

    /** The ring shows an update of the log. */
    lemma RingAfter(hit: Option<nat>, f: Event -> Event, before: Ledger, contents: seq<Event>)
      requires Structure() && contents == LastN(before.log, ring.max) && (hit.Some? ==> hit.value < |contents|)
      requires hit.Some? ==> hit.value < |before.log|
      requires ledger == Patched(before, hit, f)
      ensures ring.contents == RingPatched(contents, hit, f)
    {
      if hit.Some? {
        SuffixFromEnd(before.log, |contents|, hit.value);
        LastNAmended(before.log, ring.max, hit.value, f(FromEnd(before.log, hit.value)));
      }
    }

    /** The newest event for a query is marked as blocked. */
    method SetBlocked(node: string, domain: string) returns (ghost hit: Option<nat>, already: bool)
      requires Structure() && Counted()
      modifies ring.events, ring`contents, queue, `ledger
      ensures Structure() && Counted() && (old(Coherent()) ==> Coherent())
      ensures forall i | 0 <= i < |old(ring.contents)| && i < 1000 && (hit.Some? ==> i < hit.value) ::
                var e := FromEnd(old(ring.contents), i); !(e.domain == domain && e.node == node)
      ensures hit.Some? ==>
                && hit.value < |old(ring.contents)| && hit.value < 1000
                && var e := FromEnd(old(ring.contents), hit.value); e.domain == domain && e.node == node
      ensures |ring.contents| == |old(ring.contents)| &&
              forall i | 0 <= i < |ring.contents| ::
                var e := FromEnd(old(ring.contents), i);
                FromEnd(ring.contents, i) == if hit != Some(i) then e else e.(blocked := true)
      ensures ledger == Patched(old(ledger), hit, Block())
      ensures already == (hit.Some? && FromEnd(old(ring.contents), hit.value).blocked)
    {
      var r, same := UpdateNewest(Asked(node, domain), (e: Event) => e.blocked, Block(),
                                  (e: Event, changed: Event) => e.(blocked := true));
      hit, already := r, same;
    }

    method SetDnssec(node: string, domain: string, status: string) returns (ghost hit: Option<nat>)
      requires Structure() && Counted()
      modifies ring.events, ring`contents, queue, `ledger
      ensures Structure() && Counted() && (old(Coherent()) ==> Coherent())
      ensures forall i | 0 <= i < |old(ring.contents)| && i < 1000 && (hit.Some? ==> i < hit.value) ::
                var e := FromEnd(old(ring.contents), i); !(e.domain == domain && e.node == node)
      ensures hit.Some? ==>
                && hit.value < |old(ring.contents)| && hit.value < 1000
                && var e := FromEnd(old(ring.contents), hit.value); e.domain == domain && e.node == node
      ensures |ring.contents| == |old(ring.contents)| &&
              forall i | 0 <= i < |ring.contents| ::
                var e := FromEnd(old(ring.contents), i);
                FromEnd(ring.contents, i) == if hit != Some(i) then e else e.(dnssec := status)
      ensures ledger == Patched(old(ledger), hit, Validate(status))
    {
      var r, _ := UpdateNewest(Asked(node, domain), (e: Event) => false, Validate(status),
                               (e: Event, changed: Event) => e.(dnssec := status));
      hit := r;
    }

    /** The newest event of a client takes its host name. */
    method SetClientHostname(node: string, clientIp: string, hostname: string) returns (ghost hit: Option<nat>, already: bool)
      requires Structure() && Counted()
      modifies ring.events, ring`contents, queue, `ledger
      ensures Structure() && Counted() && (old(Coherent()) ==> Coherent())
      ensures forall i | 0 <= i < |old(ring.contents)| && i < 1000 && (hit.Some? ==> i < hit.value) ::
                var e := FromEnd(old(ring.contents), i); !(e.clientIp == clientIp && e.node == node)
      ensures hit.Some? ==>
                && hit.value < |old(ring.contents)| && hit.value < 1000
                && var e := FromEnd(old(ring.contents), hit.value); e.clientIp == clientIp && e.node == node
      ensures |ring.contents| == |old(ring.contents)| &&
              forall i | 0 <= i < |ring.contents| ::
                var e := FromEnd(old(ring.contents), i);
                FromEnd(ring.contents, i) == if hit != Some(i) then e else e.(hostname := hostname)
      ensures ledger == Patched(old(ledger), hit, NameClient(hostname))
      ensures already == (hit.Some? && FromEnd(old(ring.contents), hit.value).hostname == hostname)
    {
      var r, same := UpdateNewest(SentBy(node, clientIp), (e: Event) => e.hostname == hostname, NameClient(hostname),
                                  (e: Event, changed: Event) => e.(hostname := hostname));
      hit, already := r, same;
    }
  }

  // ----- which events an update looks for, and what it does to them -----

  function Asked(node: string, domain: string): Event -> bool {
    (e: Event) => e.domain == domain && e.node == node
  }

  function Unanswered(node: string, domain: string): Event -> bool {
    (e: Event) => e.domain == domain && e.node == node && e.latency.Unknown?
  }

  function SentBy(node: string, clientIp: string): Event -> bool {
    (e: Event) => e.clientIp == clientIp && e.node == node
  }

  function Answer(latency: real, upstream: string, response: string, threshold: real): Event -> Event {
    (e: Event) => e.(latency := Known(latency), upstream := upstream, response := response,
                     alert := e.alert || latency > threshold)
  }

  /** The queue's copy takes these fields over from the ring's event. */
  function TakeOutcome(e: Event, changed: Event): Event {
    e.(latency := changed.latency, upstream := changed.upstream, dnssec := changed.dnssec, response := changed.response,
       alert := changed.alert, hostname := changed.hostname, blocked := changed.blocked)
  }

  function Block(): Event -> Event {
    (e: Event) => e.(blocked := true)
  }

  function Validate(status: string): Event -> Event {
    (e: Event) => e.(dnssec := status)
  }

  function NameClient(hostname: string): Event -> Event {
    (e: Event) => e.(hostname := hostname)
  }

  method ClaimSingle(e: Event) returns (s: Store)
    ensures fresh(s) && fresh(s.ring) && fresh(s.ring.events) && fresh(s.queue) && s.queue.limit == 1
    ensures s.Structure() && s.Counted() && s.Coherent()
    ensures s.ledger.claim == Claim(0, 1, false) && s.ledger.log == [e] == s.claimed && s.ledger.pending == 0
  {
    hide Count, Consistent, SumBytes, Assign, Slot;
    s := new Store(1, 1, 1);
    s.AddEvent(e);
    var batch := s.ClaimBatch();
    assert batch == batch + s.queue.Pending() == [e];
    assert |s.queue.Pending()| == s.ledger.pending;
  }

  method BlockSingle(s: Store, e: Event)
    requires s.Structure() && s.Counted() && s.ledger.log == [e] && s.ledger.pending == 0
    modifies s.ring.events, s.ring`contents, s.queue, s`ledger
    ensures s.Structure() && s.Counted() && s.ledger == old(s.ledger).(log := [e.(blocked := true)])
  {
    hide Count, Consistent, SumBytes, Slot;
    assert s.ring.contents == [e];
    ghost var hit, _ := s.SetBlocked(e.node, e.domain);
    NewestOfOne(e, Asked(e.node, e.domain), hit);
    assert Amended([e], 0, e.(blocked := true)) == [e.(blocked := true)];
  }

  lemma NewestOfOne(e: Event, p: Event -> bool, hit: Option<nat>)
    requires IsNewest([e], p, SCAN_LIMIT, hit) && p(e)
    ensures hit == Some(0)
  {
    assert p(FromEnd([e], 0));
  }

  /** An update that falls between a claim and its restore is lost for the archive. */
  method UpdateDuringClaimIsLost(e: Event) returns (s: Store)
    requires !e.blocked
    ensures fresh(s) && s.Structure() && !s.Coherent()
    ensures s.ring.contents == [e.(blocked := true)] && s.queue.Pending() == [e]
  {
    hide Store.Structure, Store.Counted, Store.Coherent;
    s := ClaimSingle(e);
    BlockSingle(s, e);
    RestoreSingle(s, e);
  }

  method RestoreSingle(s: Store, e: Event)
    requires s.Structure() && s.Counted() && s.ledger.claim == Claim(0, 1, false) && s.claimed == [e] && !e.blocked
    requires s.ledger.log == [e.(blocked := true)] && s.ledger.pending == 0 && s.queue.limit == 1
    modifies s.queue, s`ledger, s`claimed
    ensures s.Structure() && !s.Coherent()
    ensures s.ring.contents == [e.(blocked := true)] && s.queue.Pending() == [e]
  {
    hide Count, Consistent, SumBytes, Assign, Slot, IsNewest;
    assert [e] + s.queue.Pending() == [e];
    s.RestoreBatch([e]);
  }
}
