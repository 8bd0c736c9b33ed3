/** The archive queue: a buffer with a start offset, compacted now and then, with byte and
    in-flight counters kept beside it. */
module ArchiveQueue {
  import opened Options
  import opened ArchiveLedger
  import opened EventRing

  const EVENT_OVERHEAD: nat := 96

  function ApproxBytes(e: Event): nat {
    EVENT_OVERHEAD + |e.node| + |e.clientIp| + |e.domain| + |e.upstream| + |e.dnssec| + |e.hostname| + |e.response| + |e.rest|
  }

  /** An event costs 96 bytes and the bytes of its strings, each counted once. */
  lemma ApproxBytesByField(e: Event, s: string)
    ensures ApproxBytes(Event("", "", "", "", "", "", "", "", e.latency, e.alert, e.blocked)) == 96
    ensures ApproxBytes(e.(node := s)) + |e.node| == ApproxBytes(e) + |s|
    ensures ApproxBytes(e.(clientIp := s)) + |e.clientIp| == ApproxBytes(e) + |s|
    ensures ApproxBytes(e.(domain := s)) + |e.domain| == ApproxBytes(e) + |s|
    ensures ApproxBytes(e.(upstream := s)) + |e.upstream| == ApproxBytes(e) + |s|
    ensures ApproxBytes(e.(dnssec := s)) + |e.dnssec| == ApproxBytes(e) + |s|
    ensures ApproxBytes(e.(hostname := s)) + |e.hostname| == ApproxBytes(e) + |s|
    ensures ApproxBytes(e.(response := s)) + |e.response| == ApproxBytes(e) + |s|
    ensures ApproxBytes(e.(rest := s)) + |e.rest| == ApproxBytes(e) + |s|
  {
  }

  function SumBytes(s: seq<Event>): nat {
    if s == [] then 0 else SumBytes(s[..|s| - 1]) + ApproxBytes(s[|s| - 1])
  }

  lemma {:induction false} SumConcat(a: seq<Event>, b: seq<Event>)
    ensures SumBytes(a + b) == SumBytes(a) + SumBytes(b)
  {
    if b == [] {
      assert a + b == a;
    } else {
      var n := |b| - 1;
      SumConcat(a, b[..n]);
      assert (a + b)[..|a| + n] == a + b[..n];
    }
  }

  lemma SumSnoc(a: seq<Event>, e: Event)
    ensures SumBytes(a + [e]) == SumBytes(a) + ApproxBytes(e)
  {
  }

  lemma SumSplit(s: seq<Event>, k: nat)
    requires k <= |s|
    ensures SumBytes(s) == SumBytes(s[..k]) + SumBytes(s[k..])
  {
    assert s == s[..k] + s[k..];
    SumConcat(s[..k], s[k..]);
  }

  lemma SumAmended(s: seq<Event>, k: nat, e: Event)
    requires k < |s|
    ensures SumBytes(Amended(s, k, e)) == SumBytes(s) - ApproxBytes(FromEnd(s, k)) + ApproxBytes(e)
  {
    hide SumBytes, ApproxBytes;
    var i := |s| - 1 - k;
    var head, tail := s[..i], s[i + 1..];
    assert s == (head + [s[i]]) + tail && Amended(s, k, e) == (head + [e]) + tail;
    SumConcat(head + [s[i]], tail);
    SumConcat(head + [e], tail);
    SumSnoc(head, s[i]);
    SumSnoc(head, e);
  }

  method TotalBytes(s: seq<Event>) returns (total: nat)
    ensures total == SumBytes(s)
  {
    total := 0;
    for i := 0 to |s|
      invariant total == SumBytes(s[..i])
    {
      assert s[..i + 1][..i] == s[..i];
      total := total + ApproxBytes(s[i]);
    }
    assert s[..|s|] == s;
  }

  /** Configured limits with their fallbacks always leave room for work. */
  function Limits(capacity: int, trigger: int, writeBatch: int, defaults: (nat, nat, nat)): (r: (nat, nat, nat))
    requires 1 <= defaults.0 && 1 <= defaults.1 && 1 <= defaults.2
    ensures 1 <= r.1 <= r.0 && 1 <= r.2 <= r.0
    ensures capacity >= 1 ==> r.0 == capacity
    ensures 1 <= trigger <= r.0 ==> r.1 == trigger
    ensures 1 <= writeBatch <= r.0 ==> r.2 == writeBatch
    ensures capacity < 1 ==> r.0 == defaults.0
    ensures trigger < 1 || trigger > r.0 ==>
              r.1 <= defaults.1 && (r.1 == defaults.1 || r.1 == 1 || r.1 == r.0 / 2) && (r.1 == 1 || r.1 <= r.0 / 2)
    ensures writeBatch < 1 || writeBatch > r.0 ==> r.2 <= defaults.2 && (r.2 == defaults.2 || r.2 == r.0)
  {
    var c := if capacity < 1 then defaults.0 else capacity;
    var half := if c / 2 < 1 then 1 else c / 2;
    var t := if trigger < 1 || trigger > c then (if defaults.1 < half then defaults.1 else half) else trigger;
    var b := if writeBatch < 1 || writeBatch > c then (if defaults.2 < c then defaults.2 else c) else writeBatch;
    (c, t, b)
  }

  /** The start offset at which the buffer is compacted. */
  function CompactAt(limit: nat): (n: nat)
    ensures n >= 1
  {
    if limit / 4 < 1 then 1 else limit / 4
  }

  class Queue {
    const limit: nat
    const writeBatch: nat
    var batch: seq<Event>
    var start: nat
    var bytes: int
    var dropped: nat
    var flightCount: int
    var flightBytes: int

    ghost predicate Valid()
      reads this
    {
      && 1 <= writeBatch <= limit
      && start <= |batch| && start < CompactAt(limit) && |batch| - start <= limit
      && bytes == SumBytes(batch[start..])
    }

    ghost function Pending(): seq<Event>
      requires Valid()
      reads this
    {
      batch[start..]
    }

    constructor (limit: nat, writeBatch: nat)
      requires 1 <= writeBatch <= limit
      ensures Valid() && Pending() == [] && dropped == 0 && flightCount == 0 && flightBytes == 0
      ensures this.limit == limit && this.writeBatch == writeBatch
    {
      this.limit, this.writeBatch := limit, writeBatch;
      batch, start, bytes, dropped, flightCount, flightBytes := [], 0, 0, 0, 0, 0;
    }

    /** The buffer never grows beyond the limit by more than a quarter. */
    lemma BufferBounded()
      requires Valid()
      ensures 4 * |batch| <= 5 * limit
    {
    }

    method Compact()
      requires start <= |batch|
      modifies `batch, `start
      ensures start == 0 && batch == old(batch[start..])
    {
      batch := batch[start..];
      start := 0;
    }

    /** A full queue loses its oldest event before the new one is appended. */
    method Add(e: Event)
      requires Valid()
      modifies `batch, `start, `bytes, `dropped
      ensures Valid() && Pending() == LastN(old(Pending()) + [e], limit)
      ensures dropped == old(dropped) + if |old(Pending())| >= limit then 1 else 0
    {
      hide SumBytes, ApproxBytes;
      if |batch| - start >= limit {
        DropFront();
      }
      SumSnoc(batch[start..], e);
      assert (batch + [e])[start..] == batch[start..] + [e];
      batch := batch + [e];
      bytes := bytes + ApproxBytes(e);
    }

    method DropFront()
      requires Valid() && |batch| > start
      modifies `batch, `start, `bytes, `dropped
      ensures Valid() && Pending() == old(Pending())[1..] && dropped == old(dropped) + 1
    {
      hide ApproxBytes;
      ghost var p := batch[start..];
      SumSplit(p, 1);
      SumSnoc([], p[0]);
      assert p[..1] == [] + [p[0]];
      assert batch[start + 1..] == p[1..];
      bytes := bytes - ApproxBytes(batch[start]);
      start := start + 1;
      if start >= CompactAt(limit) {
        Compact();
      }
      dropped := dropped + 1;
    }

    /** The oldest events move out of the queue and are counted as in flight. */
    method Claim() returns (claimed: seq<Event>)
      requires Valid()
      modifies `batch, `start, `bytes, `flightCount, `flightBytes
      ensures Valid() && claimed + Pending() == old(Pending())
      ensures |claimed| == if |old(Pending())| < writeBatch then |old(Pending())| else writeBatch
      ensures flightCount == old(flightCount) + |claimed| && flightBytes == old(flightBytes) + SumBytes(claimed)
    {
      hide SumBytes;
      var n := if |batch| - start < writeBatch then |batch| - start else writeBatch;
      claimed := TakeFront(n);
      var size := TotalBytes(claimed);
      flightCount, flightBytes := flightCount + n, flightBytes + size;
      if |batch| == start || start >= CompactAt(limit) {
        Compact();
      }
    }

    /** Advances the start over n events; the caller compacts. */
    method TakeFront(n: nat) returns (taken: seq<Event>)
      requires Valid() && n <= |Pending()|
      modifies `start, `bytes
      ensures start == old(start) + n && taken + batch[start..] == old(Pending()) && |taken| == n
      ensures bytes == SumBytes(batch[start..]) && bytes == old(bytes) - SumBytes(taken)
    {
      hide SumBytes;
      ghost var p := batch[start..];
      taken := batch[start..start + n];
      assert p[..n] == taken && p[n..] == batch[start + n..];
      SumSplit(p, n);
      var size := TotalBytes(taken);
      start := start + n;
      bytes := bytes - size;
    }

    /** A failed batch returns in front of the queue; the oldest overflow is dropped. */
    method Restore(claimed: seq<Event>)
      requires Valid()
      modifies `batch, `start, `bytes, `dropped, `flightCount, `flightBytes
      ensures Valid() && Pending() == LastN(claimed + old(Pending()), limit)
      ensures dropped == old(dropped) + Overflow(|claimed|, |old(Pending())|, limit)
      ensures flightCount == old(flightCount) - |claimed| && flightBytes == old(flightBytes) - SumBytes(claimed)
    {
      var combined := claimed + batch[start..];
      var lost := if |combined| > limit then |combined| - limit else 0;
      batch, start := combined[lost..], 0;
      assert batch[0..] == batch;
      var total := TotalBytes(batch);
      bytes := total;
      var size := TotalBytes(claimed);
      flightCount, flightBytes := flightCount - |claimed|, flightBytes - size;
      dropped := dropped + lost;
    }

    /** A committed batch is no longer in flight. */
    method Finish(claimed: seq<Event>)
      requires Valid()
      modifies `flightCount, `flightBytes
      ensures Valid() && Pending() == old(Pending())
      ensures flightCount == old(flightCount) - |claimed| && flightBytes == old(flightBytes) - SumBytes(claimed)
    {
      var size := TotalBytes(claimed);
      flightCount, flightBytes := flightCount - |claimed|, flightBytes - size;
    }

    /** Backward scan over the pending events. */
    method FindNewest(p: Event -> bool) returns (r: Option<nat>)
      requires Valid()
      ensures IsNewest(Pending(), p, |Pending()|, r)
    {
      ghost var s := Pending();
      var b := |batch| - 1;
      while b >= start
        invariant start - 1 <= b < |batch|
        invariant forall j | 0 <= j < |batch| - 1 - b :: !p(FromEnd(s, j))
      {
        assert batch[b] == FromEnd(s, |batch| - 1 - b);
        if p(batch[b]) {
          return Some(|batch| - 1 - b);
        }
        b := b - 1;
      }
      return None;
    }

    method Get(k: nat) returns (e: Event)
      requires Valid() && k < |Pending()|
      ensures e == FromEnd(Pending(), k)
    {
      e := batch[|batch| - 1 - k];
    }

    /** Changing a pending event adjusts the byte count by the difference. */
    method Amend(k: nat, e: Event)
      requires Valid() && k < |Pending()|
      modifies `batch, `bytes
      ensures Valid() && Pending() == Amended(old(Pending()), k, e)
    {
      var b := |batch| - 1 - k;
      SumAmended(batch[start..], k, e);
      var before := ApproxBytes(batch[b]);
      assert batch[b := e][start..] == Amended(batch[start..], k, e);
      batch := batch[b := e];
      bytes := bytes + ApproxBytes(e) - before;
    }
  }
}
