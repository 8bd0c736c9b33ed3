/** Cache entries: which responses are stored, for how long, and what TTL a hit advertises.
    Times are nanoseconds, TTLs whole seconds. */
module CacheEntries {
  import opened Options

  const SECOND: int := 1_000_000_000
  const DEFAULT_CAPACITY: nat := 25000
  const DEFAULT_MIN_TTL: nat := 60
  const DEFAULT_MAX_TTL: nat := 600

  datatype Rcode = Success | NameError | ServerFailure | OtherRcode(code: nat)

  /** A record is opaque except for its TTL and, for an SOA, its MINIMUM field. */
  datatype Record =
    | Plain(ttl: nat, data: string)
    | Soa(ttl: nat, minimum: nat, owner: string)

  datatype Message = Message(rcode: Rcode, answer: seq<Record>, authority: seq<Record>, truncated: bool)

  datatype Entry = Entry(answer: seq<Record>, authority: seq<Record>, rcode: Rcode, storedAt: int, ttl: nat,
                         hits: nat, negative: bool, servfail: bool, prefetched: bool, expiredObserved: bool)

  /** TTL bounds of the cache and the configured lifetime of a cached failure. */
  datatype Policy = Policy(minTtl: nat, maxTtl: nat, servfailTtl: int)

  predicate ValidPolicy(p: Policy) {
    1 <= p.minTtl <= p.maxTtl && 0 <= p.servfailTtl <= SECOND
  }

  /** Whole seconds of a duration, rounded toward zero. */
  function TruncatedSeconds(d: int): int {
    if d >= 0 then d / SECOND else -((-d) / SECOND)
  }

  function RemainingTtl(e: Entry, now: int): int {
    e.ttl - TruncatedSeconds(now - e.storedAt)
  }

  predicate Live(e: Entry, now: int) {
    RemainingTtl(e, now) > 0
  }

  /** An entry is live exactly while its age is below its TTL. */
  lemma LiveWhileYoungerThanTtl(e: Entry, now: int)
    requires e.ttl >= 1
    ensures Live(e, now) <==> now - e.storedAt < e.ttl * SECOND
  {
  }

  /** A hit advertises at least one second, and age plus advertised TTL stays within a
      second of the stored TTL. */
  lemma AdvertisedTtl(e: Entry, now: int)
    requires e.storedAt <= now && Live(e, now)
    ensures 1 <= RemainingTtl(e, now) <= e.ttl
    ensures e.ttl * SECOND <= (now - e.storedAt) + RemainingTtl(e, now) * SECOND < (e.ttl + 1) * SECOND
  {
  }

  function Clamp(p: Policy, ttl: nat): nat {
    if ttl < p.minTtl then p.minTtl else if ttl > p.maxTtl then p.maxTtl else ttl
  }

  /** The clamped TTL is within the bounds, and nothing within them is nearer to the given one. */
  lemma ClampNearest(p: Policy, ttl: nat, x: nat)
    requires p.minTtl <= x <= p.maxTtl
    ensures var c := Clamp(p, ttl);
            p.minTtl <= c <= p.maxTtl && (ttl <= c <= x || x <= c <= ttl || c == ttl)
  {
  }

  /** m is the smallest TTL among the records, zero when there is none. */
  predicate IsMinTtl(records: seq<Record>, m: nat) {
    if records == [] then m == 0
    else (exists r | r in records :: r.ttl == m) && (forall r | r in records :: m <= r.ttl)
  }

  method MinAnswerTtl(records: seq<Record>) returns (minimum: nat)
    ensures IsMinTtl(records, minimum)
  {
    minimum := 0;
    var initialized := false;
    for i := 0 to |records|
      invariant initialized <==> i > 0
      invariant IsMinTtl(records[..i], minimum)
    {
      assert records[..i + 1] == records[..i] + [records[i]];
      if !initialized || records[i].ttl < minimum {
        minimum := records[i].ttl;
        initialized := true;
      }
    }
    assert records[..|records|] == records;
  }

  /** The first SOA of a section. */
  function FirstSoa(records: seq<Record>): (r: Option<Record>)
    ensures r.Some? ==> r.value.Soa? && r.value in records
    ensures r.None? ==> forall x | x in records :: !x.Soa?
  {
    if records == [] then None
    else if records[0].Soa? then Some(records[0])
    else FirstSoa(records[1..])
  }

  lemma {:induction false} FirstSoaAt(records: seq<Record>, k: nat)
    requires k < |records| && records[k].Soa? && forall i | 0 <= i < k :: !records[i].Soa?
    ensures FirstSoa(records) == Some(records[k])
  {
    if k > 0 {
      FirstSoaAt(records[1..], k - 1);
    }
  }

  /** Section 5 of RFC 2308: the smaller of the SOA's own TTL and its MINIMUM field. */
  method SoaTtl(records: seq<Record>) returns (ttl: Option<nat>)
    ensures ttl.Some? <==> FirstSoa(records).Some?
    ensures ttl.Some? ==> var soa := FirstSoa(records).value;
                          ttl.value == if soa.minimum < soa.ttl then soa.minimum else soa.ttl
  {
    var i := 0;
    while i < |records|
      invariant 0 <= i <= |records|
      invariant FirstSoa(records) == FirstSoa(records[i..])
    {
      if records[i].Soa? {
        var t := records[i].ttl;
        if records[i].minimum < t { t := records[i].minimum; }
        return Some(t);
      }
      assert records[i..][1..] == records[i + 1..];
      i := i + 1;
    }
    return None;
  }

  predicate IsNegative(m: Message) {
    m.rcode == NameError || (m.rcode == Success && m.answer == [])
  }

  /** What the cache may do with a response. */
  ghost predicate Storable(p: Policy, m: Message, now: int, e: Entry) {
    && !m.truncated
    && e.answer == m.answer && e.authority == m.authority && e.rcode == m.rcode
    && e.ttl >= 1 && e.hits == 0 && !e.expiredObserved
    && (if m.rcode == Success && m.answer != [] then
          && !e.negative && !e.servfail && e.storedAt == now
          && p.minTtl <= e.ttl <= p.maxTtl
          && (exists t: nat :: IsMinTtl(m.answer, t) && e.ttl == Clamp(p, t) && (p.minTtl <= t <= p.maxTtl ==> e.ttl == t))
        else if IsNegative(m) then
          && e.negative && !e.servfail && e.storedAt == now
          && FirstSoa(m.authority).Some?
          && var soa := FirstSoa(m.authority).value;
             e.ttl <= soa.ttl && e.ttl <= soa.minimum && e.ttl <= p.maxTtl
             && (e.ttl == soa.ttl || e.ttl == soa.minimum || e.ttl == p.maxTtl)
        else
          && m.rcode == ServerFailure && p.servfailTtl > 0
          && !e.negative && e.servfail && e.ttl == 1)
  }

  /** The stored entry for a response, or nothing when it must not be cached. */
  method EntryFor(p: Policy, m: Message, prefetched: bool, now: int) returns (e: Option<Entry>)
    requires ValidPolicy(p)
    ensures e.Some? ==> Storable(p, m, now, e.value) && e.value.prefetched == prefetched
    ensures e.Some? && e.value.servfail ==> e.value.storedAt == now + p.servfailTtl - SECOND
    ensures e.None? <==>
            || m.truncated
            || (IsNegative(m) && (FirstSoa(m.authority).None? || FirstSoa(m.authority).value.ttl == 0
                                  || FirstSoa(m.authority).value.minimum == 0))
            || (m.rcode == ServerFailure && p.servfailTtl == 0)
            || m.rcode.OtherRcode?
  {
    if m.truncated {
      return None;
    }
    var base := Entry(m.answer, m.authority, m.rcode, now, 0, 0, false, false, prefetched, false);
    if m.rcode == Success && m.answer != [] {
      var ttl := MinAnswerTtl(m.answer);
      return Some(base.(ttl := Clamp(p, ttl)));
    } else if IsNegative(m) {
      var soa := SoaTtl(m.authority);
      if soa.None? {
        return None;
      }
      var ttl := if soa.value > p.maxTtl then p.maxTtl else soa.value;
      if ttl == 0 {
        return None;
      }
      return Some(base.(ttl := ttl, negative := true));
    } else if m.rcode == ServerFailure && p.servfailTtl > 0 {
      return Some(base.(storedAt := now + p.servfailTtl - SECOND, ttl := 1, servfail := true));
    } else {
      return None;
    }
  }

  /** A cached failure, backdated at store time, is live exactly for its configured bound. */
  lemma ServfailLifetime(p: Policy, m: Message, now: int, e: Entry, later: int)
    requires ValidPolicy(p) && Storable(p, m, now, e) && e.servfail
    requires e.storedAt == now + p.servfailTtl - SECOND
    ensures Live(e, later) <==> later - now < p.servfailTtl
  {
  }

  /** A negative entry is never served as fresh beyond any of its three bounds. */
  lemma NegativeLifetime(p: Policy, m: Message, now: int, e: Entry, later: int)
    requires Storable(p, m, now, e) && e.negative && Live(e, later)
    ensures var soa := FirstSoa(m.authority).value;
            && later - now < soa.ttl * SECOND
            && later - now < soa.minimum * SECOND
            && later - now < p.maxTtl * SECOND
  {
  }
}
