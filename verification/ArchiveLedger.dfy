/** What becomes of every archived event.  A ledger lists all arrivals in order with the
    fate of each; the queue, the claimed batch and the drop rules are positions in it. */
module ArchiveLedger {

  datatype Event = Event(node: string, clientIp: string, domain: string, upstream: string, dnssec: string,
                         hostname: string, response: string, rest: string,
                         latency: Latency, alert: bool, blocked: bool)

  datatype Latency = Unknown | Known(milliseconds: real)

  datatype Fate = Pending | Claimed | Committed | Dropped

  /** A claimed batch covers [from, to); gapped says that newer events were dropped since. */
  datatype Claim = NoClaim | Claim(from: nat, to: nat, gapped: bool)

  datatype Ledger = Ledger(log: seq<Event>, fates: seq<Fate>, pending: nat, claim: Claim)

  const Empty := Ledger([], [], 0, NoClaim)

  /** Position of the oldest pending event. */
  function Front(l: Ledger): int {
    |l.log| - l.pending
  }

  predicate Settled(f: Fate) {
    f == Committed || f == Dropped
  }

  /** The pending events are exactly the newest arrivals; the claimed ones are a range just
      before them, unless drops opened a gap, and then the queue is full. */
  ghost predicate Consistent(l: Ledger, limit: nat) {
    && |l.fates| == |l.log| && l.pending <= |l.log| && l.pending <= limit
    && (forall i | 0 <= i < |l.fates| :: l.fates[i] == Pending <==> Front(l) <= i)
    && (l.claim.NoClaim? ==> forall i | 0 <= i < |l.fates| :: l.fates[i] != Claimed)
    && (l.claim.Claim? ==>
          && l.claim.from < l.claim.to <= Front(l)
          && (if l.claim.gapped then l.pending == limit else l.claim.to == Front(l))
          && (forall i | 0 <= i < |l.fates| :: l.fates[i] == Claimed <==> l.claim.from <= i < l.claim.to)
          && (forall i | l.claim.from <= i < |l.fates| :: l.fates[i] != Committed))
  }

  /** Conservation and order: an event is committed only when every older one is settled. */
  lemma CommitsInOrder(l: Ledger, limit: nat, i: nat, j: nat)
    requires Consistent(l, limit) && i < j < |l.fates| && l.fates[j] == Committed
    ensures l.fates[i] == Committed || l.fates[i] == Dropped
  {
  }

  function Count(fates: seq<Fate>, f: Fate): nat {
    if fates == [] then 0 else Count(fates[..|fates| - 1], f) + if fates[|fates| - 1] == f then 1 else 0
  }

  lemma {:induction false} CountAll(fates: seq<Fate>)
    ensures Count(fates, Pending) + Count(fates, Claimed) + Count(fates, Committed) + Count(fates, Dropped) == |fates|
  {
    if fates != [] {
      CountAll(fates[..|fates| - 1]);
    }
  }

  lemma {:induction false} CountConcat(a: seq<Fate>, b: seq<Fate>, f: Fate)
    ensures Count(a + b, f) == Count(a, f) + Count(b, f)
  {
    if b == [] {
      assert a + b == a;
    } else {
      var n := |b| - 1;
      CountConcat(a, b[..n], f);
      assert (a + b)[..|a| + n] == a + b[..n];
    }
  }

  lemma {:induction false} CountUniform(fates: seq<Fate>, g: Fate, f: Fate)
    requires forall i | 0 <= i < |fates| :: fates[i] == g
    ensures Count(fates, f) == if f == g then |fates| else 0
  {
    if fates != [] {
      CountUniform(fates[..|fates| - 1], g, f);
    }
  }

  function Assign(fates: seq<Fate>, from: nat, to: nat, f: Fate): (r: seq<Fate>)
    requires from <= to <= |fates|
    ensures |r| == |fates|
    ensures forall i | 0 <= i < |r| :: r[i] == if from <= i < to then f else fates[i]
  {
    fates[..from] + seq(to - from, _ => f) + fates[to..]
  }

  /** Reassigning a uniform range moves its whole length from one count to the other. */
  lemma AssignCounts(fates: seq<Fate>, from: nat, to: nat, was: Fate, f: Fate, g: Fate)
    requires from <= to <= |fates| && forall i | from <= i < to :: fates[i] == was
    ensures Count(Assign(fates, from, to, f), g)
            == Count(fates, g) + (if g == f then to - from else 0) - (if g == was then to - from else 0)
  {
    hide Count;
    var a, b, b', c := fates[..from], fates[from..to], seq(to - from, _ => f), fates[to..];
    assert fates == a + (b + c) && Assign(fates, from, to, f) == a + (b' + c);
    CountConcat(a, b + c, g);
    CountConcat(b, c, g);
    CountConcat(a, b' + c, g);
    CountConcat(b', c, g);
    CountUniform(b, was, g);
    CountUniform(b', f, g);
  }

  function ClaimSize(c: Claim): nat {
    match c case NoClaim => 0 case Claim(from, to, _) => if from <= to then to - from else 0
  }

  /** The fates count what the queue and the claim hold. */
  lemma FateCounts(l: Ledger, limit: nat)
    requires Consistent(l, limit)
    ensures Count(l.fates, Pending) == l.pending && Count(l.fates, Claimed) == ClaimSize(l.claim)
  {
    hide Count;
    var front := Front(l);
    assert l.fates == l.fates[..front] + l.fates[front..];
    CountConcat(l.fates[..front], l.fates[front..], Pending);
    CountUniform(l.fates[front..], Pending, Pending);
    CountNone(l.fates[..front], Pending);
    if l.claim.NoClaim? {
      CountNone(l.fates, Claimed);
    } else {
      var a, b, c := l.fates[..l.claim.from], l.fates[l.claim.from..l.claim.to], l.fates[l.claim.to..];
      assert l.fates == a + (b + c);
      CountConcat(a, b + c, Claimed);
      CountConcat(b, c, Claimed);
      CountUniform(b, Claimed, Claimed);
      CountNone(a, Claimed);
      CountNone(c, Claimed);
    }
  }

  lemma {:induction false} CountNone(fates: seq<Fate>, f: Fate)
    requires forall i | 0 <= i < |fates| :: fates[i] != f
    ensures Count(fates, f) == 0
  {
    if fates != [] {
      CountNone(fates[..|fates| - 1], f);
    }
  }

  /** Conservation: every arrival is committed, dropped, in the claimed batch or in the queue. */
  lemma ArrivalsConserved(l: Ledger, limit: nat)
    requires Consistent(l, limit)
    ensures |l.log| == Count(l.fates, Committed) + Count(l.fates, Dropped) + ClaimSize(l.claim) + l.pending
  {
    CountAll(l.fates);
    FateCounts(l, limit);
  }

  // ----- the operations -----

  /** A full queue loses its oldest event; during a claim that opens a gap. */
  function DropOldest(l: Ledger): Ledger
    requires 0 < l.pending <= |l.log| == |l.fates|
  {
    Ledger(l.log, Assign(l.fates, Front(l), Front(l) + 1, Dropped), l.pending - 1,
           if l.claim.Claim? then l.claim.(gapped := true) else NoClaim)
  }

  function Append(l: Ledger, e: Event): Ledger {
    Ledger(l.log + [e], l.fates + [Pending], l.pending + 1, l.claim)
  }

  function Add(l: Ledger, e: Event, limit: nat): Ledger
    requires 0 < limit && l.pending <= |l.log| == |l.fates|
  {
    Append(if l.pending >= limit then DropOldest(l) else l, e)
  }

  function ClaimOldest(l: Ledger, n: nat): Ledger
    requires n <= l.pending <= |l.log| == |l.fates|
  {
    Ledger(l.log, Assign(l.fates, Front(l), Front(l) + n, Claimed), l.pending - n,
           Claim(Front(l), Front(l) + n, false))
  }

  function Commit(l: Ledger): Ledger
    requires l.claim.Claim? && l.claim.from <= l.claim.to <= |l.fates|
  {
    Ledger(l.log, Assign(l.fates, l.claim.from, l.claim.to, Committed), l.pending, NoClaim)
  }

  /** How many of the oldest events do not fit when a claimed batch comes back. */
  function Overflow(claimed: nat, pending: nat, limit: nat): nat {
    if claimed + pending > limit then claimed + pending - limit else 0
  }

  function Restore(l: Ledger, limit: nat): Ledger
    requires l.claim.Claim? && l.claim.from <= l.claim.to <= |l.fates| && l.pending <= limit
  {
    var n := l.claim.to - l.claim.from;
    var d := Overflow(n, l.pending, limit);
    Ledger(l.log, Assign(Assign(l.fates, l.claim.from, l.claim.from + d, Dropped), l.claim.from + d, l.claim.to, Pending),
           l.pending + n - d, NoClaim)
  }

  lemma AddConsistent(l: Ledger, e: Event, limit: nat)
    requires Consistent(l, limit) && 0 < limit
    ensures Consistent(Add(l, e, limit), limit)
  {
  }

  /** What an operation adds to the events with fate f. */
  lemma AddCounts(l: Ledger, e: Event, limit: nat, f: Fate)
    requires Consistent(l, limit) && 0 < limit && Settled(f)
    ensures Count(Add(l, e, limit).fates, f)
            == Count(l.fates, f) + if f == Dropped && l.pending >= limit then 1 else 0
  {
    hide Count;
    if l.pending >= limit {
      AssignCounts(l.fates, Front(l), Front(l) + 1, Pending, Dropped, f);
    }
    var fates := if l.pending >= limit then DropOldest(l).fates else l.fates;
    CountConcat(fates, [Pending], f);
    CountUniform([Pending], Pending, f);
  }

  lemma ClaimConsistent(l: Ledger, n: nat, limit: nat)
    requires Consistent(l, limit) && l.claim.NoClaim? && 0 < n <= l.pending
    ensures Consistent(ClaimOldest(l, n), limit)
  {
  }

  lemma ClaimCounts(l: Ledger, n: nat, limit: nat, f: Fate)
    requires Consistent(l, limit) && l.claim.NoClaim? && 0 < n <= l.pending && Settled(f)
    ensures Count(ClaimOldest(l, n).fates, f) == Count(l.fates, f)
  {
    AssignCounts(l.fates, Front(l), Front(l) + n, Pending, Claimed, f);
  }

  lemma CommitConsistent(l: Ledger, limit: nat)
    requires Consistent(l, limit) && l.claim.Claim?
    ensures Consistent(Commit(l), limit)
  {
  }

  lemma CommitCounts(l: Ledger, limit: nat, f: Fate)
    requires Consistent(l, limit) && l.claim.Claim? && Settled(f)
    ensures Count(Commit(l).fates, f)
            == Count(l.fates, f) + if f == Committed then l.claim.to - l.claim.from else 0
  {
    AssignCounts(l.fates, l.claim.from, l.claim.to, Claimed, Committed, f);
  }

  /** A returning batch lands directly before the pending events; after a gap it is dropped
      as a whole, so the queue stays a contiguous range of arrivals. */
  lemma RestoreConsistent(l: Ledger, limit: nat)
    requires Consistent(l, limit) && l.claim.Claim?
    ensures Consistent(Restore(l, limit), limit)
    ensures var d := Overflow(l.claim.to - l.claim.from, l.pending, limit);
            d <= l.claim.to - l.claim.from && (l.claim.gapped ==> d == l.claim.to - l.claim.from)
  {
  }

  lemma RestoreCounts(l: Ledger, limit: nat, f: Fate)
    requires Consistent(l, limit) && l.claim.Claim? && Settled(f)
    ensures Count(Restore(l, limit).fates, f)
            == Count(l.fates, f) + if f == Dropped then Overflow(l.claim.to - l.claim.from, l.pending, limit) else 0
  {
    hide Count;
    var mid := l.claim.from + Overflow(l.claim.to - l.claim.from, l.pending, limit);
    AssignCounts(l.fates, l.claim.from, mid, Claimed, Dropped, f);
    AssignCounts(Assign(l.fates, l.claim.from, mid, Dropped), mid, l.claim.to, Claimed, Pending, f);
  }

  // ----- every run -----

  datatype Step = DoAdd(e: Event) | DoClaim(batch: nat) | DoCommit | DoRestore

  /** Steps that are not enabled do nothing; claims are serialised. */
  function Apply(l: Ledger, step: Step, limit: nat): Ledger
    requires 0 < limit && l.pending <= |l.log| == |l.fates| && l.pending <= limit
    requires l.claim.Claim? ==> l.claim.from <= l.claim.to <= |l.fates|
  {
    match step
    case DoAdd(e) => Add(l, e, limit)
    case DoClaim(batch) =>
      var n := if batch < l.pending then batch else l.pending;
      if l.claim.NoClaim? && n > 0 then ClaimOldest(l, n) else l
    case DoCommit => if l.claim.Claim? then Commit(l) else l
    case DoRestore => if l.claim.Claim? then Restore(l, limit) else l
  }

  lemma StepConsistent(l: Ledger, step: Step, limit: nat)
    requires Consistent(l, limit) && 0 < limit
    ensures Consistent(Apply(l, step, limit), limit)
  {
    match step
    case DoAdd(e) => AddConsistent(l, e, limit);
    case DoClaim(batch) =>
      var n := if batch < l.pending then batch else l.pending;
      if l.claim.NoClaim? && n > 0 { ClaimConsistent(l, n, limit); }
    case DoCommit => if l.claim.Claim? { CommitConsistent(l, limit); }
    case DoRestore => if l.claim.Claim? { RestoreConsistent(l, limit); }
  }

  ghost function Run(steps: seq<Step>, limit: nat): (l: Ledger)
    requires 0 < limit
    ensures Consistent(l, limit)
  {
    if steps == [] then Empty
    else
      var l := Run(steps[..|steps| - 1], limit);
      StepConsistent(l, steps[|steps| - 1], limit);
      Apply(l, steps[|steps| - 1], limit)
  }

  /** In every run, the arrivals are those committed, dropped, claimed and pending, the pending
      ones are the newest and the claimed ones a range, and the commits happen in order. */
  lemma EveryArrivalOnce(steps: seq<Step>, limit: nat)
    requires 0 < limit
    ensures var l := Run(steps, limit);
            && |l.log| == Count(l.fates, Committed) + Count(l.fates, Dropped) + ClaimSize(l.claim) + l.pending
            && Count(l.fates, Pending) == l.pending && Count(l.fates, Claimed) == ClaimSize(l.claim)
            && forall i, j | 0 <= i < j < |l.fates| && l.fates[j] == Committed ::
                 l.fates[i] == Committed || l.fates[i] == Dropped
  {
    hide Count, Run;
    var l := Run(steps, limit);
    ArrivalsConserved(l, limit);
    FateCounts(l, limit);
    forall i, j | 0 <= i < j < |l.fates| && l.fates[j] == Committed
      ensures l.fates[i] == Committed || l.fates[i] == Dropped
    {
      CommitsInOrder(l, limit, i, j);
    }
  }
}
