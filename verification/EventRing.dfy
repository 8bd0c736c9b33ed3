/** The in-memory ring of recent events: a circular array that always holds the newest ones. */
module EventRing {
  import opened Options
  import opened ArchiveLedger

  function LastN<T>(s: seq<T>, n: nat): seq<T> {
    if |s| > n then s[|s| - n..] else s
  }

  /** The element at distance i from the newest. */
  function FromEnd(s: seq<Event>, i: nat): Event
    requires i < |s|
  {
    s[|s| - 1 - i]
  }

  /** r is the distance of the newest element that matches, looking at most limit back. */
  ghost predicate IsNewest(s: seq<Event>, p: Event -> bool, limit: nat, r: Option<nat>) {
    match r
    case None => forall i | 0 <= i < |s| && i < limit :: !p(FromEnd(s, i))
    case Some(k) => k < |s| && k < limit && p(FromEnd(s, k)) && forall i | 0 <= i < k :: !p(FromEnd(s, i))
  }

  /** s with the element at distance k from the end replaced. */
  function Amended(s: seq<Event>, k: nat, e: Event): (r: seq<Event>)
    requires k < |s|
    ensures |r| == |s| && forall i | 0 <= i < |s| :: FromEnd(r, i) == if i == k then e else FromEnd(s, i)
  {
    s[|s| - 1 - k := e]
  }

  /** Where the element at distance i from the newest is stored. */
  function Slot(head: nat, i: nat, max: nat): (s: nat)
    requires head < max && i < max
    ensures s < max
  {
    if head >= i + 1 then head - 1 - i else head + max - 1 - i
  }

  /** The slot is head - 1 - i modulo the size of the ring. */
  lemma SlotIsModulo(head: nat, i: nat, max: nat)
    requires head < max && i < max
    ensures (head + max - 1 - i) % max == Slot(head, i, max)
  {
    Wrap(head + max - 1 - i, max);
  }

  lemma Wrap(x: nat, max: nat)
    requires 0 < max && x < 2 * max
    ensures x % max == if x < max then x else x - max
  {
    if x < max {
      assert x / max == 0;
    } else {
      assert x / max == 1;
    }
  }

  function Next(head: nat, max: nat): nat
    requires head < max
  {
    if head + 1 < max then head + 1 else 0
  }

  /** Advancing the head moves every element one further away. */
  lemma Advance(head: nat, max: nat)
    requires head < max
    ensures (head + 1) % max == Next(head, max) && Slot(Next(head, max), 0, max) == head
    ensures forall i {:trigger Slot(Next(head, max), i, max)} | 0 < i < max ::
              Slot(Next(head, max), i, max) == Slot(head, i - 1, max)
  {
  }

  lemma SlotNotHead(head: nat, i: nat, max: nat)
    requires head < max && i + 1 < max
    ensures Slot(head, i, max) != head
  {
  }

  lemma NewestAfterPush(s: seq<Event>, e: Event, max: nat)
    requires 0 < max && |s| <= max
    ensures var r := LastN(s + [e], max);
            && |r| == (if |s| < max then |s| + 1 else max)
            && FromEnd(r, 0) == e
            && forall i | 0 < i < |r| :: FromEnd(r, i) == FromEnd(s, i - 1)
  {
  }

  class Ring {
    const max: nat
    const events: array<Event>
    var head: nat
    var count: nat

    /** The stored events, oldest first. */
    ghost var contents: seq<Event>

    ghost predicate Valid()
      reads this, events
    {
      && 0 < max == events.Length && head < max && |contents| == count <= max
      && forall i | 0 <= i < count :: events[Slot(head, i, max)] == FromEnd(contents, i)
    }

    constructor (max: nat)
      requires 0 < max
      ensures Valid() && contents == [] && this.max == max && fresh(events)
    {
      this.max := max;
      var blank := Event("", "", "", "", "", "", "", "", Unknown, false, false);
      events := new Event[max](_ => blank);
      head, count, contents := 0, 0, [];
    }

    /** A new event overwrites the oldest one of a full ring. */
    method Push(e: Event)
      requires Valid()
      modifies this, events
      ensures Valid() && contents == LastN(old(contents) + [e], max)
    {
      hide Slot, LastN;
      events[head] := e;
      Advance(head, max);
      NewestAfterPush(contents, e, max);
      assert forall i | 0 <= i && i + 1 < max :: Slot(head, i, max) != head by {
        forall i | 0 <= i && i + 1 < max ensures Slot(head, i, max) != head { SlotNotHead(head, i, max); }
      }
      contents := LastN(contents + [e], max);
      head := (head + 1) % max;
      if count < max {
        count := count + 1;
      }
    }

    /** Backward scan from the newest event, bounded by the scan limit. */
    method FindNewest(p: Event -> bool, limit: nat) returns (r: Option<nat>)
      requires Valid()
      ensures IsNewest(contents, p, limit, r)
    {
      var bound := if count > limit then limit else count;
      for i := 0 to bound
        invariant forall j | 0 <= j < i :: !p(FromEnd(contents, j))
      {
        SlotIsModulo(head, i, max);
        if p(events[(head + max - 1 - i) % max]) {
          return Some(i);
        }
      }
      return None;
    }

    method Get(k: nat) returns (e: Event)
      requires Valid() && k < count
      ensures e == FromEnd(contents, k)
    {
      e := events[Slot(head, k, max)];
    }

    method Amend(k: nat, e: Event)
      requires Valid() && k < count
      modifies events, `contents
      ensures Valid() && contents == Amended(old(contents), k, e)
    {
      events[Slot(head, k, max)] := e;
      contents := Amended(contents, k, e);
    }
  }
}
